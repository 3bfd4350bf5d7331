/** Packed-decimal addition and subtraction (emulator/65816core.c; the 6510's ADC is
    core/vice-3.3/src/6510core.c). */
module Decimal {
  import opened Primitives
  import opened Machine
  import opened Instructions

  predicate IsBcd(b: Byte) {
    b % 0x10 <= 9 && b / 0x10 <= 9
  }

  /** The number two packed digits stand for. */
  function Bcd(b: Byte): nat {
    b / 0x10 * 10 + b % 0x10
  }

  function One(b: bool): (i: int)
    ensures 0 <= i <= 1
  {
    if b then 1 else 0
  }

  // ----- one byte

  lemma Digits(h: int, l: int)
    requires 0 <= l < 0x10
    ensures (0x10 * h + l) % 0x10 == l && (0x10 * h + l) / 0x10 == h
  {
  }

  /** The same for two, three and four digits below. */
  lemma SplitByte(q: int, r: int)
    requires 0 <= r < 0x100
    ensures (0x100 * q + r) % 0x100 == r && (0x100 * q + r) / 0x100 == q
  {
  }

  lemma SplitThree(q: int, r: int)
    requires 0 <= r < 0x1000
    ensures (0x1000 * q + r) % 0x1000 == r && (0x1000 * q + r) / 0x1000 == q
  {
  }

  lemma SplitWord(q: int, r: int)
    requires 0 <= r < 0x10000
    ensures (0x10000 * q + r) % 0x10000 == r
  {
  }

  /** Two digit columns before the result is cut down to a byte. */
  lemma SumColumns(ah: int, al: int, vh: int, vl: int, carry: int, r: Sum)
    requires 0 <= ah <= 9 && 0 <= al <= 9 && 0 <= vh <= 9 && 0 <= vl <= 9 && 0 <= carry <= 1
    requires r == Adc8(0x10 * ah + al, 0x10 * vh + vl, carry, true)
    ensures var low := al + vl + carry;
            var high := ah + vh + One(low > 9);
            r.carry == (high > 9) && r.value == 0x10 * high + (if low > 9 then low - 10 else low) + 0x60 * One(high > 9)
  {
    Digits(ah, al);
    Digits(vh, vl);
    var low := al + vl + carry;
    assert (if low > 9 then low + 6 else low) % 0x10 == if low > 9 then low - 10 else low by {
      Digits(if low > 9 then 1 else 0, if low > 9 then low - 10 else low);
    }
  }

  /** One byte of packed digits added: the digits and the carry are those of the decimal sum. */
  lemma AddsDigits(a: Byte, v: Byte, carry: int, r: Sum)
    requires IsBcd(a) && IsBcd(v) && 0 <= carry <= 1 && r == Adc8(a, v, carry, true)
    ensures IsBcd(Lo(r.value)) && Bcd(Lo(r.value)) + 100 * One(r.carry) == Bcd(a) + Bcd(v) + carry
  {
    var ah, al, vh, vl := a / 0x10, a % 0x10, v / 0x10, v % 0x10;
    SumColumns(ah, al, vh, vl, carry, r);
    var low := al + vl + carry;
    var high := ah + vh + One(low > 9);
    Cut(if high > 9 then high - 10 else high, if low > 9 then low - 10 else low, One(high > 9), r.value);
  }

  lemma Cut(h: int, l: int, over: int, value: int)
    requires 0 <= h <= 9 && 0 <= l <= 9 && 0 <= over <= 1 && value == 0x10 * h + l + 0x100 * over
    ensures IsBcd(Lo(value)) && Bcd(Lo(value)) == 10 * h + l
  {
    SplitByte(over, 0x10 * h + l);
    Digits(h, l);
  }

  lemma LowColumn(d: int)
    requires -10 <= d <= 9
    ensures Column(0x10 + d, 1) == if d < 0 then d + 10 else d
  {
  }

  lemma HighColumn(d: int, l: int)
    requires -10 <= d <= 9 && 0 <= l < 0x10
    ensures Column(0x100 + 0x10 * d + l, 0x10) == 0x10 * if d < 0 then d + 10 else d
  {
    Digits(d + 10, l);
    Digits(d + 0x10, l);
  }

  /** One column of a subtraction, before it is cut down to a digit. */
  lemma DifferenceColumns(ah: int, al: int, vh: int, vl: int, carry: int, r: Sum)
    requires 0 <= ah <= 9 && 0 <= al <= 9 && 0 <= vh <= 9 && 0 <= vl <= 9 && 0 <= carry <= 1
    requires r == Sbc8(0x10 * ah + al, 0x10 * vh + vl, carry, true)
    ensures var low := al - vl - (1 - carry);
            var high := ah - vh - One(low < 0);
            r.carry == (high >= 0) && r.value == 0x10 * (if high < 0 then high + 10 else high) +
              if low < 0 then low + 10 else low
  {
    Digits(ah, al);
    Digits(vh, vl);
    var low := al - vl - (1 - carry);
    var high := ah - vh - One(low < 0);
    var s0, s1 := al + (0xf - vl) + carry, 0x10 * ah + al + (0xff - 0x10 * vh - vl) + carry;
    assert s0 == 0x10 + low && s1 == 0x100 + 0x10 * high + if low < 0 then low + 0x10 else low;
    LowColumn(low);
    HighColumn(high, if low < 0 then low + 0x10 else low);
  }

  /** And subtracted: the carry says that nothing was borrowed. */
  lemma SubtractsDigits(a: Byte, v: Byte, carry: int, r: Sum)
    requires IsBcd(a) && IsBcd(v) && 0 <= carry <= 1 && r == Sbc8(a, v, carry, true)
    ensures IsBcd(Lo(r.value)) && Bcd(Lo(r.value)) == Bcd(a) - Bcd(v) - (1 - carry) + 100 * One(!r.carry)
  {
    var ah, al, vh, vl := a / 0x10, a % 0x10, v / 0x10, v % 0x10;
    DifferenceColumns(ah, al, vh, vl, carry, r);
    var low := al - vl - (1 - carry);
    var high := ah - vh - One(low < 0);
    Cut(if high < 0 then high + 10 else high, if low < 0 then low + 10 else low, 0, r.value);
  }

  // ----- multi-byte chains, least significant byte first

  ghost predicate AllBcd(xs: seq<Byte>) {
    forall i :: 0 <= i < |xs| ==> IsBcd(xs[i])
  }

  function Value(xs: seq<Byte>): (r: nat) {
    if xs == [] then 0 else Bcd(xs[0]) + 100 * Value(xs[1..])
  }

  function Pow100(n: nat): nat {
    if n == 0 then 1 else 100 * Pow100(n - 1)
  }

  lemma {:induction false} ValueBound(xs: seq<Byte>)
    requires AllBcd(xs)
    ensures Value(xs) < Pow100(|xs|)
  {
    if xs != [] {
      assert IsBcd(xs[0]);
      ValueBound(xs[1..]);
    }
  }

  lemma ValueCons(b: Byte, xs: seq<Byte>)
    ensures Value([b] + xs) == Bcd(b) + 100 * Value(xs)
    ensures IsBcd(b) && AllBcd(xs) ==> AllBcd([b] + xs)
  {
    assert ([b] + xs)[1..] == xs;
  }

  lemma BcdTail(xs: seq<Byte>)
    requires xs != [] && AllBcd(xs)
    ensures IsBcd(xs[0]) && AllBcd(xs[1..])
  {
  }

  /** What a carry out of n bytes is worth. */
  function Over(carry: bool, n: nat): nat {
    if carry then Pow100(n) else 0
  }

  /** A run of ADC instructions, each taking the carry of the one before. */
  function AddChain(xs: seq<Byte>, ys: seq<Byte>, carry: bool): (r: (seq<Byte>, bool))
    requires |xs| == |ys|
    ensures |r.0| == |xs|
  {
    if xs == [] then ([], carry)
    else
      var first := Adc8(xs[0], ys[0], One(carry), true);
      var (rest, out) := AddChain(xs[1..], ys[1..], first.carry);
      ([Lo(first.value)] + rest, out)
  }

  function SubChain(xs: seq<Byte>, ys: seq<Byte>, carry: bool): (r: (seq<Byte>, bool))
    requires |xs| == |ys|
    ensures |r.0| == |xs|
  {
    if xs == [] then ([], carry)
    else
      var first := Sbc8(xs[0], ys[0], One(carry), true);
      var (rest, out) := SubChain(xs[1..], ys[1..], first.carry);
      ([Lo(first.value)] + rest, out)
  }

  /** The chain adds numbers of any length, digits and carry. */
  lemma {:induction false} ChainAdds(xs: seq<Byte>, ys: seq<Byte>, carry: bool, sum: seq<Byte>, out: bool)
    requires |xs| == |ys| && AllBcd(xs) && AllBcd(ys) && (sum, out) == AddChain(xs, ys, carry)
    ensures AllBcd(sum) && Value(sum) + Over(out, |xs|) == Value(xs) + Value(ys) + One(carry)
    decreases xs
  {
    if xs != [] {
      var first := Adc8(xs[0], ys[0], One(carry), true);
      BcdTail(xs);
      BcdTail(ys);
      AddsDigits(xs[0], ys[0], One(carry), first);
      var (rest, over) := AddChain(xs[1..], ys[1..], first.carry);
      ChainAdds(xs[1..], ys[1..], first.carry, rest, over);
      ValueCons(Lo(first.value), rest);
    }
  }

  /** The chain subtracts modulo 100^n, and its carry says that nothing was borrowed. */
  lemma {:induction false} ChainSubtracts(xs: seq<Byte>, ys: seq<Byte>, carry: bool, diff: seq<Byte>, out: bool)
    requires |xs| == |ys| && AllBcd(xs) && AllBcd(ys) && (diff, out) == SubChain(xs, ys, carry)
    ensures AllBcd(diff) && Value(diff) + Value(ys) + One(!carry) == Value(xs) + Over(!out, |xs|)
    ensures out <==> Value(xs) >= Value(ys) + One(!carry)
    decreases xs
  {
    if xs != [] {
      var first := Sbc8(xs[0], ys[0], One(carry), true);
      BcdTail(xs);
      BcdTail(ys);
      SubtractsDigits(xs[0], ys[0], One(carry), first);
      var (rest, over) := SubChain(xs[1..], ys[1..], first.carry);
      ChainSubtracts(xs[1..], ys[1..], first.carry, rest, over);
      ValueCons(Lo(first.value), rest);
      ValueBound(diff);
    }
  }

  lemma {:induction false} ValueDetermines(xs: seq<Byte>, ys: seq<Byte>)
    requires |xs| == |ys| && AllBcd(xs) && AllBcd(ys) && Value(xs) == Value(ys)
    ensures xs == ys
  {
    if xs != [] {
      BcdTail(xs);
      BcdTail(ys);
      assert Bcd(xs[0]) == Bcd(ys[0]) && Value(xs[1..]) == Value(ys[1..]);
      ValueDetermines(xs[1..], ys[1..]);
      assert xs == [xs[0]] + xs[1..] && ys == [ys[0]] + ys[1..];
    }
  }

  /** Subtracting what was added gives back the same bytes, and the opposite carry. */
  lemma SubtractionUndoesAddition(xs: seq<Byte>, ys: seq<Byte>, carry: bool)
    requires |xs| == |ys| && AllBcd(xs) && AllBcd(ys)
    ensures SubChain(AddChain(xs, ys, carry).0, ys, !carry) == (xs, !AddChain(xs, ys, carry).1)
  {
    var (sum, out) := AddChain(xs, ys, carry);
    ChainAdds(xs, ys, carry, sum, out);
    var (diff, borrow) := SubChain(sum, ys, !carry);
    ChainSubtracts(sum, ys, !carry, diff, borrow);
    ValueBound(xs);
    ValueBound(diff);
    ValueDetermines(diff, xs);
  }

  // ----- sixteen bits

  /** One corrected digit column of an addition, for any digits 0 to 15. */
  function Corrected(sum: int): int {
    if sum > 9 then (sum + 6) % 0x10 else sum
  }

  /** A column's sum before it is cut down to a digit. */
  function Raised(high: int): int {
    if high > 9 then high + 6 else high
  }

  /** A column's sum on top of the columns below it: the correction the code applies, and what it leaves. */
  lemma TensColumn(high: int, below: int, t: int)
    requires 0 <= high < 0x20 && 0 <= below < 0x10 && t == 0x10 * high + below
    ensures t > 0x9f <==> high > 9
    ensures (if t > 0x9f then t + 0x60 else t) == 0x10 * Raised(high) + below
    ensures (if t > 0x9f then t + 0x60 else t) % 0x100 == 0x10 * Corrected(high) + below
  {
    hide Corrected;
    CorrectedIs(high);
    SplitByte(Raised(high) / 0x10, 0x10 * (Raised(high) % 0x10) + below);
  }

  lemma CorrectedIs(high: int)
    requires 0 <= high < 0x20
    ensures Corrected(high) == Raised(high) % 0x10
  {
  }

  /** A byte addition by columns. */
  lemma ByteSum(h: int, l: int, g: int, k: int, carry: int, r: Sum)
    requires 0 <= h < 0x10 && 0 <= l < 0x10 && 0 <= g < 0x10 && 0 <= k < 0x10 && 0 <= carry <= 1
    requires r == Adc8(0x10 * h + l, 0x10 * g + k, carry, true)
    ensures var high := h + g + One(l + k + carry > 9);
            r.carry == (high > 9) && Lo(r.value) == 0x10 * Corrected(high) + Corrected(l + k + carry)
  {
    Digits(h, l);
    Digits(g, k);
    var low := Corrected(l + k + carry);
    var high := h + g + One(l + k + carry > 9);
    TensColumn(high, low, 0x10 * high + low);
  }

  datatype Four = Four(d3: int, d2: int, d1: int, d0: int)
  {
    predicate Valid() {
      0 <= d0 < 0x10 && 0 <= d1 < 0x10 && 0 <= d2 < 0x10 && 0 <= d3 < 0x10
    }

    function Word(): int {
      0x1000 * d3 + 0x100 * d2 + 0x10 * d1 + d0
    }
  }

  lemma WordDigits(c: Four)
    requires c.Valid()
    ensures 0 <= c.Word() < 0x10000
    ensures c.Word() % 0x10 == c.d0 && c.Word() / 0x10 % 0x10 == c.d1
    ensures c.Word() / 0x100 % 0x10 == c.d2 && c.Word() / 0x1000 == c.d3
    ensures Lo(c.Word()) == 0x10 * c.d1 + c.d0 && Hi(c.Word()) == 0x10 * c.d3 + c.d2
    ensures c.Word() / 0x100 == Hi(c.Word())
  {
    assert c.Word() / 0x10 == 0x100 * c.d3 + 0x10 * c.d2 + c.d1;
    assert c.Word() / 0x100 == 0x10 * c.d3 + c.d2;
  }

  function FourOf(c: Word): (f: Four)
    ensures f.Valid() && f.Word() == c
  {
    assert c / 0x10 / 0x10 == c / 0x100 && c / 0x100 / 0x10 == c / 0x1000;
    Four(c / 0x1000, c / 0x100 % 0x10, c / 0x10 % 0x10, c % 0x10)
  }

  lemma HundredsColumn(high: int, below: int, t: int)
    requires 0 <= high < 0x20 && 0 <= below < 0x100 && t == 0x100 * high + below
    ensures t > 0x9ff <==> high > 9
    ensures (if t > 0x9ff then t + 0x600 else t) % 0x1000 == 0x100 * Corrected(high) + below
  {
    hide Corrected;
    CorrectedIs(high);
    SplitThree(Raised(high) / 0x10, 0x100 * (Raised(high) % 0x10) + below);
  }

  lemma ThousandsColumn(high: int, below: int, t: int)
    requires 0 <= high < 0x20 && 0 <= below < 0x1000 && t == 0x1000 * high + below
    ensures t > 0x9fff <==> high > 9
    ensures (if t > 0x9fff then t + 0x6000 else t) > 0xffff <==> high > 9
    ensures (if t > 0x9fff then t + 0x6000 else t) % 0x10000 == 0x1000 * Corrected(high) + below
  {
    hide Corrected;
    CorrectedIs(high);
    SplitWord(Raised(high) / 0x10, 0x1000 * (Raised(high) % 0x10) + below);
  }

  /** Column sums of a word addition, each with the carry of the one below. */
  function ColumnSums(c: Four, v: Four, carry: int): Four {
    var s0 := c.d0 + v.d0 + carry;
    var s1 := c.d1 + v.d1 + One(s0 > 9);
    var s2 := c.d2 + v.d2 + One(s1 > 9);
    Four(c.d3 + v.d3 + One(s2 > 9), s2, s1, s0)
  }

  lemma TensSumIs(c: Four, v: Four, carry: int, t: nat)
    requires c.Valid() && v.Valid() && 0 <= carry <= 1
    requires 0 <= c.Word() < 0x10000 && 0 <= v.Word() < 0x10000 && t == TensSum(c.Word(), v.Word(), carry)
    ensures t == 0x10 * (c.d1 + v.d1 + One(c.d0 + v.d0 + carry > 9)) + Corrected(c.d0 + v.d0 + carry)
  {
    WordDigits(c);
    WordDigits(v);
  }

  lemma HundredsSumIs(c: Four, v: Four, high: int, below: int, t: nat)
    requires c.Valid() && v.Valid() && 0 <= high < 0x20 && 0 <= below < 0x10
    requires 0 <= c.Word() < 0x10000 && 0 <= v.Word() < 0x10000 &&
             t == HundredsSum(c.Word(), v.Word(), 0x10 * high + below)
    ensures t == 0x100 * (c.d2 + v.d2 + One(high > 9)) + 0x10 * Corrected(high) + below
  {
    WordDigits(c);
    WordDigits(v);
    TensColumn(high, below, 0x10 * high + below);
  }

  lemma ThousandsSumIs(c: Four, v: Four, high: int, below: int, t: nat)
    requires c.Valid() && v.Valid() && 0 <= high < 0x20 && 0 <= below < 0x100
    requires 0 <= c.Word() < 0x10000 && 0 <= v.Word() < 0x10000 &&
             t == ThousandsSum(c.Word(), v.Word(), 0x100 * high + below)
    ensures t == 0x1000 * (c.d3 + v.d3 + One(high > 9)) + 0x100 * Corrected(high) + below
  {
    WordDigits(c);
    WordDigits(v);
    HundredsColumn(high, below, 0x100 * high + below);
  }

  /** The corrected digits of the column sums. */
  function Result(s: Four): Four {
    Four(Corrected(s.d3), Corrected(s.d2), Corrected(s.d1), Corrected(s.d0))
  }

  lemma WordSum(c: Four, v: Four, carry: int, r: Sum)
    requires c.Valid() && v.Valid() && 0 <= carry <= 1
    requires 0 <= c.Word() < 0x10000 && 0 <= v.Word() < 0x10000 && r == Adc16(c.Word(), v.Word(), carry, true)
    ensures var s := ColumnSums(c, v, carry);
            r.carry == (s.d3 > 9) && r.value % 0x10000 == Result(s).Word()
  {
    hide TensSum, HundredsSum, ThousandsSum, Adc16, Corrected;
    Adc16Is(c.Word(), v.Word(), carry);
    var s := ColumnSums(c, v, carry);
    var t := ThousandsSum(c.Word(), v.Word(), HundredsSum(c.Word(), v.Word(), TensSum(c.Word(), v.Word(), carry)));
    var below := 0x100 * Corrected(s.d2) + 0x10 * Corrected(s.d1) + Corrected(s.d0);
    WordSums(c, v, carry, c.Word(), v.Word(), t, below);
    ThousandsColumn(s.d3, below, t);
  }

  /** The columns of the corrected sums before the last correction. */
  lemma WordSums(c: Four, v: Four, carry: int, cw: Word, vw: Word, t: nat, below: int)
    requires c.Valid() && v.Valid() && 0 <= carry <= 1 && cw == c.Word() && vw == v.Word()
    requires t == ThousandsSum(cw, vw, HundredsSum(cw, vw, TensSum(cw, vw, carry)))
    requires var s := ColumnSums(c, v, carry);
             below == 0x100 * Corrected(s.d2) + 0x10 * Corrected(s.d1) + Corrected(s.d0)
    ensures t == 0x1000 * ColumnSums(c, v, carry).d3 + below && 0 <= below < 0x1000
    ensures 0 <= ColumnSums(c, v, carry).d3 < 0x20
  {
    hide TensSum, HundredsSum, ThousandsSum, Corrected, Four.Word;
    var s := ColumnSums(c, v, carry);
    var d0, d1, d2 := Corrected(s.d0), Corrected(s.d1), Corrected(s.d2);
    CorrectedDigit(s.d0);
    CorrectedDigit(s.d1);
    CorrectedDigit(s.d2);
    var t1 := TensSum(cw, vw, carry);
    TensSumIs(c, v, carry, t1);
    var t2 := HundredsSum(cw, vw, t1);
    HundredsSumIs(c, v, s.d1, d0, t2);
    ThousandsSumIs(c, v, s.d2, 0x10 * d1 + d0, t);
  }

  lemma Adc16Is(c: Word, v: Word, carry: int)
    requires 0 <= carry <= 1
    ensures var t := ThousandsSum(c, v, HundredsSum(c, v, TensSum(c, v, carry)));
            var r := Adc16(c, v, carry, true);
            r.value == (if t > 0x9fff then t + 0x6000 else t) && r.carry == (r.value > 0xffff)
  {
    hide TensSum, HundredsSum, ThousandsSum, Overflows;
  }

  lemma CorrectedDigit(s: int)
    requires 0 <= s < 0x20
    ensures 0 <= Corrected(s) < 0x10
  {
  }

  lemma ResultValid(s: Four)
    requires 0 <= s.d0 < 0x20 && 0 <= s.d1 < 0x20 && 0 <= s.d2 < 0x20 && 0 <= s.d3 < 0x20
    ensures Result(s).Valid()
  {
    CorrectedDigit(s.d0);
    CorrectedDigit(s.d1);
    CorrectedDigit(s.d2);
    CorrectedDigit(s.d3);
  }

  /** The same columns, two bytes of two. */
  lemma TwoByteSums(f: Four, g: Four, carry: int, low: Sum, high: Sum)
    requires f.Valid() && g.Valid() && 0 <= carry <= 1
    requires low == Adc8(0x10 * f.d1 + f.d0, 0x10 * g.d1 + g.d0, carry, true)
    requires high == Adc8(0x10 * f.d3 + f.d2, 0x10 * g.d3 + g.d2, One(low.carry), true)
    ensures var s := ColumnSums(f, g, carry);
            && Lo(low.value) == 0x10 * Result(s).d1 + Result(s).d0 &&
              Lo(high.value) == 0x10 * Result(s).d3 + Result(s).d2
            && high.carry == (s.d3 > 9) && Result(s).Valid()
  {
    var s := ColumnSums(f, g, carry);
    ByteSum(f.d1, f.d0, g.d1, g.d0, carry, low);
    assert low.carry == (s.d1 > 9);
    ByteSum(f.d3, f.d2, g.d3, g.d2, One(low.carry), high);
    ResultValid(s);
  }

  /** For all words, packed decimal or not, the 16-bit decimal ADC is two chained 8-bit ones. */
  lemma WordIsTwoBytes(c: Word, v: Word, carry: int, low: Sum, high: Sum, r: Sum)
    requires 0 <= carry <= 1
    requires low == Adc8(Lo(c), Lo(v), carry, true) && high == Adc8(Hi(c), Hi(v), One(low.carry), true)
    requires r == Adc16(c, v, carry, true)
    ensures Lo(r.value) == Lo(low.value) && Hi(r.value) == Lo(high.value) && r.carry == high.carry
  {
    hide Adc8, Adc16, FourOf, ColumnSums, Corrected, Lo, Hi;
    var f, g := FourOf(c), FourOf(v);
    WordDigits(f);
    WordDigits(g);
    WordSum(f, g, carry, r);
    TwoByteSums(f, g, carry, low, high);
    var s := ColumnSums(f, g, carry);
    WordDigits(Result(s));
    WordParts(r.value, Result(s).Word());
  }

  lemma WordParts(a: nat, w: Word)
    requires a % 0x10000 == w
    ensures Lo(a) == Lo(w) && Hi(a) == Hi(w)
  {
    assert a == 0x10000 * (a / 0x10000) + w;
    assert a / 0x100 == 0x100 * (a / 0x10000) + w / 0x100;
  }

  // ----- sixteen-bit subtraction, which takes A where it needs C

  /** A column's difference with its borrow from the next. */
  function Borrowed(d: int): int {
    if d < 0 then d + 10 else d
  }

  function ColumnDifferences(c: Four, v: Four, carry: int): Four {
    var e0 := c.d0 - v.d0 - (1 - carry);
    var e1 := c.d1 - v.d1 - One(e0 < 0);
    var e2 := c.d2 - v.d2 - One(e1 < 0);
    Four(c.d3 - v.d3 - One(e2 < 0), e2, e1, e0)
  }

  function Difference(e: Four): Four {
    Four(Borrowed(e.d3), Borrowed(e.d2), Borrowed(e.d1), Borrowed(e.d0))
  }

  predicate Decimals(f: Four) {
    0 <= f.d0 <= 9 && 0 <= f.d1 <= 9 && 0 <= f.d2 <= 9 && 0 <= f.d3 <= 9
  }

  lemma HundredsDifference(d: int, l: int)
    requires -10 <= d <= 9 && 0 <= l < 0x100
    ensures Column(0x1000 + 0x100 * d + l, 0x100) == 0x100 * Borrowed(d)
  {
  }

  lemma ThousandsDifference(d: int, l: int)
    requires -10 <= d <= 9 && 0 <= l < 0x1000
    ensures Column(0x10000 + 0x1000 * d + l, 0x1000) == 0x1000 * Borrowed(d)
  {
  }

  function Wrapped(d: int): int {
    if d < 0 then d + 0x10 else d
  }

  /** The minuend the code really uses: the low byte of C. */
  function LowHalf(c: Four): Four {
    Four(0, 0, c.d1, c.d0)
  }

  /** The sums of minuend and complement, from the lowest column to all four. */
  lemma WordDifferenceSums(c: Four, v: Four, carry: int, e: Four)
    requires Decimals(c) && Decimals(v) && 0 <= carry <= 1 && e == ColumnDifferences(LowHalf(c), v, carry)
    ensures var a, w := c.Word() % 0x100, v.Word();
            && a % 0x10 + (0xf - w % 0x10) + carry == 0x10 + e.d0
            && a + (0xff - w % 0x100) + carry == 0x100 + 0x10 * e.d1 + Wrapped(e.d0)
            && a + (0xfff - w % 0x1000) + carry == 0x1000 + 0x100 * e.d2 + (0x10 * Wrapped(e.d1) + Wrapped(e.d0))
            && a + (0xffff - w) + carry == 0x10000 + 0x1000 * e.d3 +
              (0x100 * Wrapped(e.d2) + (0x10 * Wrapped(e.d1) + Wrapped(e.d0)))
  {
    ModDigits(c);
    ModDigits(v);
    Digits(c.d1, c.d0);
    hide Four.Word, Decimals;
    DifferenceParts(c, v, carry, e, c.Word() % 0x100, v.Word());
  }

  /** The same with no division left in it. */
  lemma DifferenceParts(c: Four, v: Four, carry: int, e: Four, a: int, w: int)
    requires e == ColumnDifferences(LowHalf(c), v, carry) && a == 0x10 * c.d1 + c.d0
    requires w == 0x1000 * v.d3 + 0x100 * v.d2 + 0x10 * v.d1 + v.d0
    ensures c.d0 + (0xf - v.d0) + carry == 0x10 + e.d0
    ensures a + (0xff - (0x10 * v.d1 + v.d0)) + carry == 0x100 + 0x10 * e.d1 + Wrapped(e.d0)
    ensures a + (0xfff - (0x100 * v.d2 + 0x10 * v.d1 + v.d0)) + carry
         == 0x1000 + 0x100 * e.d2 + (0x10 * Wrapped(e.d1) + Wrapped(e.d0))
    ensures a + (0xffff - w) + carry
         == 0x10000 + 0x1000 * e.d3 + (0x100 * Wrapped(e.d2) + (0x10 * Wrapped(e.d1) + Wrapped(e.d0)))
  {
  }

  lemma SbcSums(c: Word, v: Word, carry: int, a: Byte, s0: int, s1: int, s2: int, s3: int)
    requires 0 <= carry <= 1 && a == c % 0x100
    requires s0 == a % 0x10 + (0xf - v % 0x10) + carry && s1 == a + (0xff - v % 0x100) + carry
    requires s2 == a + (0xfff - v % 0x1000) + carry && s3 == a + (0xffff - v) + carry
    ensures Sbc16(c, v, carry, true).value == Columns(s0, s1, s2, s3) && Sbc16(c, v, carry, true).carry == (s3 > 0xffff)
  {
  }

  lemma ColumnsAre(e: Four, s0: int, s1: int, s2: int, s3: int)
    requires -10 <= e.d0 <= 9 && -10 <= e.d1 <= 9 && -10 <= e.d2 <= 9 && -10 <= e.d3 <= 9
    requires s0 == 0x10 + e.d0
    requires s1 == 0x100 + 0x10 * e.d1 + Wrapped(e.d0)
    requires s2 == 0x1000 + 0x100 * e.d2 + (0x10 * Wrapped(e.d1) + Wrapped(e.d0))
    requires s3 == 0x10000 + 0x1000 * e.d3 + (0x100 * Wrapped(e.d2) + (0x10 * Wrapped(e.d1) + Wrapped(e.d0)))
    ensures Columns(s0, s1, s2, s3) == Difference(e).Word() && (s3 > 0xffff <==> e.d3 >= 0)
  {
    LowColumn(e.d0);
    HighColumn(e.d1, Wrapped(e.d0));
    HundredsDifference(e.d2, 0x10 * Wrapped(e.d1) + Wrapped(e.d0));
    ThousandsDifference(e.d3, 0x100 * Wrapped(e.d2) + (0x10 * Wrapped(e.d1) + Wrapped(e.d0)));
  }

  lemma WordDifference(c: Four, v: Four, carry: int, e: Four, cw: Word, vw: Word, r: Sum)
    requires Decimals(c) && Decimals(v) && 0 <= carry <= 1 && e == ColumnDifferences(LowHalf(c), v, carry)
    requires cw == c.Word() && vw == v.Word() && r == Sbc16(cw, vw, carry, true)
    ensures r.value == Difference(e).Word() && r.carry == (e.d3 >= 0)
  {
    var a: Byte := cw % 0x100;
    var s0, s1 := a % 0x10 + (0xf - vw % 0x10) + carry, a + (0xff - vw % 0x100) + carry;
    var s2, s3 := a + (0xfff - vw % 0x1000) + carry, a + (0xffff - vw) + carry;
    assert r.value == Columns(s0, s1, s2, s3) && r.carry == (s3 > 0xffff) by {
      SbcSums(cw, vw, carry, a, s0, s1, s2, s3);
    }
    assert Columns(s0, s1, s2, s3) == Difference(e).Word() && (s3 > 0xffff <==> e.d3 >= 0) by {
      WordDifferenceSums(c, v, carry, e);
      ColumnsAre(e, s0, s1, s2, s3);
    }
  }

  lemma ModDigits(v: Four)
    requires Decimals(v)
    ensures v.Word() % 0x10 == v.d0 && v.Word() % 0x100 == 0x10 * v.d1 + v.d0
    ensures v.Word() % 0x1000 == 0x100 * v.d2 + 0x10 * v.d1 + v.d0
  {
    WordDigits(v);
    assert v.Word() == 0x1000 * v.d3 + (0x100 * v.d2 + 0x10 * v.d1 + v.d0);
  }

  /** Two chained byte subtractions by columns: what the 16-bit one should give. */
  lemma TwoByteDifferences(c: Four, v: Four, carry: int, e: Four, low: Sum, high: Sum)
    requires Decimals(c) && Decimals(v) && 0 <= carry <= 1 && e == ColumnDifferences(c, v, carry)
    requires low == Sbc8(0x10 * c.d1 + c.d0, 0x10 * v.d1 + v.d0, carry, true)
    requires high == Sbc8(0x10 * c.d3 + c.d2, 0x10 * v.d3 + v.d2, One(low.carry), true)
    ensures low.value + 0x100 * high.value == Difference(e).Word() && high.carry == (e.d3 >= 0)
  {
    hide Sbc8;
    DifferenceColumns(c.d1, c.d0, v.d1, v.d0, carry, low);
    assert low.carry == (e.d1 >= 0) && low.value == 0x10 * Borrowed(e.d1) + Borrowed(e.d0);
    DifferenceColumns(c.d3, c.d2, v.d3, v.d2, One(low.carry), high);
  }

  /** Dropping the upper digits of the minuend changes the difference exactly when they are not zero. */
  lemma LowHalfDifference(c: Four, v: Four, carry: int)
    requires Decimals(c) && Decimals(v) && 0 <= carry <= 1
    ensures Difference(ColumnDifferences(LowHalf(c), v, carry)).Word() ==
            Difference(ColumnDifferences(c, v, carry)).Word()
       <==> c.d2 == 0 && c.d3 == 0
  {
    var e, f := ColumnDifferences(LowHalf(c), v, carry), ColumnDifferences(c, v, carry);
    assert e.d0 == f.d0 && e.d1 == f.d1;
    if c.d2 != 0 {
      assert Borrowed(e.d2) != Borrowed(f.d2);
    } else if c.d3 != 0 {
      assert e.d2 == f.d2 && Borrowed(e.d3) != Borrowed(f.d3);
    }
  }

  ghost predicate BcdWord(w: Word) {
    IsBcd(Lo(w)) && IsBcd(Hi(w))
  }

  /** For packed-decimal words the 16-bit SBC gives the digits of two chained 8-bit ones exactly
      when the accumulator is below 100. */
  lemma WideSubtraction(c: Word, v: Word, carry: int, low: Sum, high: Sum, r: Sum)
    requires BcdWord(c) && BcdWord(v) && 0 <= carry <= 1
    requires low == Sbc8(Lo(c), Lo(v), carry, true) && high == Sbc8(Hi(c), Hi(v), One(low.carry), true)
    requires r == Sbc16(c, v, carry, true)
    ensures r.value == low.value + 0x100 * high.value <==> Hi(c) == 0
    ensures Hi(c) == 0 ==> r.carry == high.carry
  {
    hide Sbc8, Sbc16, ColumnDifferences, Difference, IsBcd, BcdWord, FourOf, Lo, Hi;
    var f, g := FourOf(c), FourOf(v);
    WordDigits(f);
    WordDigits(g);
    DigitsBcd(c);
    DigitsBcd(v);
    var e := ColumnDifferences(f, g, carry);
    WordDifference(f, g, carry, ColumnDifferences(LowHalf(f), g, carry), c, v, r);
    TwoByteDifferences(f, g, carry, e, low, high);
    LowHalfDifference(f, g, carry);
  }

  lemma DigitsBcd(c: Word)
    requires BcdWord(c)
    ensures Decimals(FourOf(c))
  {
    var f := FourOf(c);
    WordDigits(f);
    Digits(f.d1, f.d0);
    Digits(f.d3, f.d2);
  }

  /** 100 minus 1 comes out as 9999. */
  lemma WideSubtractionFails()
    ensures BcdWord(0x100) && BcdWord(1) && Sbc16(0x100, 1, 1, true).value == 0x9999
  {
    assert Sbc16(0x100, 1, 1, true).value == Columns(0xf, 0xff, 0xfff, 0xffff) by {
      hide Sbc16, Columns;
      SbcSums(0x100, 1, 1, 0, 0xf, 0xff, 0xfff, 0xffff);
    }
    assert Columns(0xf, 0xff, 0xfff, 0xffff) == 0x9999 by {
      hide Sbc16;
    }
    hide Sbc16, Columns;
  }

  // ----- overflow after a 16-bit decimal addition, which looks at A where it needs C

  /** The top bits that decide, of the accumulator and of the uncorrected sum. */
  lemma OverflowBits(c: Word, v: Word, carry: int, t: nat)
    requires 0 <= carry <= 1 && t == ThousandsSum(c, v, HundredsSum(c, v, TensSum(c, v, carry)))
    ensures Adc16(c, v, carry, true).overflow == Overflows(c, v, t, 0x8000)
       <==> c < 0x8000 || BitSet(v, 0x8000) == BitSet(t, 0x8000)
    ensures BitSet(v, 0x8000) == (v >= 0x8000)
  {
    hide ThousandsSum, HundredsSum, TensSum;
    WordTop(c);
    WordTop(v);
    WordTop(c % 0x100);
  }

  lemma WordTop(w: Word)
    ensures BitSet(w, 0x8000) == (w >= 0x8000)
  {
  }

  lemma TopColumn(c: Four, v: Four, carry: int, t: nat)
    requires c.Valid() && v.Valid() && 0 <= carry <= 1 && 0 <= c.Word() < 0x10000 && 0 <= v.Word() < 0x10000
    requires t == ThousandsSum(c.Word(), v.Word(), HundredsSum(c.Word(), v.Word(), TensSum(c.Word(), v.Word(), carry)))
    ensures BitSet(t, 0x8000) == (ColumnSums(c, v, carry).d3 / 8 % 2 == 1)
  {
    hide TensSum, HundredsSum, ThousandsSum, BitSet, Four.Word;
    var s := ColumnSums(c, v, carry);
    TensSumIs(c, v, carry, TensSum(c.Word(), v.Word(), carry));
    HundredsSumIs(c, v, s.d1, Corrected(s.d0), HundredsSum(c.Word(), v.Word(), TensSum(c.Word(), v.Word(), carry)));
    ThousandsSumIs(c, v, s.d2, 0x10 * Corrected(s.d1) + Corrected(s.d0), t);
    TopBit(s.d3, t - 0x1000 * s.d3, t);
  }

  lemma TopBit(top: nat, below: nat, t: nat)
    requires below < 0x1000 && t == 0x1000 * top + below
    ensures BitSet(t, 0x8000) == (top / 8 % 2 == 1)
  {
    assert t / 0x8000 == top / 8;
  }

  /** For any words: V is what the same formula gives from C exactly when C is in the lower half, or
      the top bit of the operand is bit 3 of the sum of the top digits and the carry into them. */
  lemma WideOverflowWords(c: Word, v: Word, carry: int, t: nat, top: int)
    requires 0 <= carry <= 1 && t == ThousandsSum(c, v, HundredsSum(c, v, TensSum(c, v, carry)))
    requires top == ColumnSums(FourOf(c), FourOf(v), carry).d3
    ensures Adc16(c, v, carry, true).overflow == Overflows(c, v, t, 0x8000)
       <==> c < 0x8000 || (v >= 0x8000) == (top / 8 % 2 == 1)
  {
    hide Adc16, Overflows, ThousandsSum, HundredsSum, TensSum, ColumnSums, BitSet;
    OverflowBits(c, v, carry, t);
    TopColumn(FourOf(c), FourOf(v), carry, t);
  }

  /** The number a packed-decimal word stands for. */
  function BcdOf(w: Word): nat {
    100 * Bcd(Hi(w)) + Bcd(Lo(w))
  }

  lemma TopDigitSum(c: Word, v: Word, carry: int)
    requires BcdWord(c) && BcdWord(v) && 0 <= carry <= 1
    ensures ColumnSums(FourOf(c), FourOf(v), carry).d3 >= 16 <==> BcdOf(c) + BcdOf(v) + carry >= 16000
    ensures ColumnSums(FourOf(c), FourOf(v), carry).d3 <= 19
    ensures c >= 0x8000 ==> ColumnSums(FourOf(c), FourOf(v), carry).d3 >= if v >= 0x8000 then 16 else 8
  {
    var f, g := FourOf(c), FourOf(v);
    DigitsBcd(c);
    DigitsBcd(v);
    NumberOf(c, f);
    NumberOf(v, g);
    hide FourOf, BcdOf;
    SumOfColumns(f, g, carry);
  }

  lemma NumberOf(w: Word, f: Four)
    requires f == FourOf(w)
    ensures BcdOf(w) == 1000 * f.d3 + 100 * f.d2 + 10 * f.d1 + f.d0
  {
    WordDigits(f);
    Digits(f.d1, f.d0);
    Digits(f.d3, f.d2);
  }

  lemma SumOfColumns(c: Four, v: Four, carry: int)
    requires Decimals(c) && Decimals(v) && 0 <= carry <= 1
    ensures var total := 1000 * (c.d3 + v.d3) + 100 * (c.d2 + v.d2) + 10 * (c.d1 + v.d1) + c.d0 + v.d0 + carry;
            ColumnSums(c, v, carry).d3 == total / 1000
  {
  }

  /** For packed-decimal words: exactly when C is below 8000, or the operand is too and they still
      reach 16000 together. */
  lemma WideOverflow(c: Word, v: Word, carry: int, t: nat)
    requires BcdWord(c) && BcdWord(v) && 0 <= carry <= 1 &&
             t == ThousandsSum(c, v, HundredsSum(c, v, TensSum(c, v, carry)))
    ensures Adc16(c, v, carry, true).overflow == Overflows(c, v, t, 0x8000)
       <==> c < 0x8000 || (v < 0x8000 && BcdOf(c) + BcdOf(v) + carry >= 16000)
  {
    hide Adc16, Overflows, ThousandsSum, HundredsSum, TensSum, BcdOf, BcdWord, BitSet, ColumnSums, FourOf;
    WideOverflowWords(c, v, carry, t, ColumnSums(FourOf(c), FourOf(v), carry).d3);
    TopDigitSum(c, v, carry);
  }

  /** 8000 plus 0 sets V, though nothing overflows. */
  lemma WideOverflowFails()
    ensures ThousandsSum(0x8000, 0, HundredsSum(0x8000, 0, TensSum(0x8000, 0, 0))) == 0x8000
    ensures Adc16(0x8000, 0, 0, true).overflow && !Overflows(0x8000, 0, 0x8000, 0x8000)
  {
    assert TensSum(0x8000, 0, 0) == 0;
    assert HundredsSum(0x8000, 0, 0) == 0;
    assert ThousandsSum(0x8000, 0, 0) == 0x8000;
    OverflowBits(0x8000, 0, 0, 0x8000);
    assert BitSet(0x8000, 0x8000) && !BitSet(0, 0x8000);
  }

  // ----- the 6510

  /** ADC of the 6510: here Z comes from the binary sum, and N from before the last correction. */
  datatype Sum6510 = Sum6510(value: Byte, carry: bool, overflow: bool, zero: bool, sign: bool)

  function Adc6510(a: Byte, v: Byte, carry: int, decimal: bool): Sum6510
    requires 0 <= carry <= 1
  {
    if decimal then
      var low := a % 0x10 + v % 0x10 + carry;
      var t := if low > 9 then low + 6 else low;
      var sum := t % 0x10 + (a - a % 0x10) + (v - v % 0x10) + if t <= 0xf then 0 else 0x10;
      var full := if sum % 0x200 - sum % 0x10 > 0x90 then sum + 0x60 else sum;
      Sum6510(Lo(full), full % 0x1000 - full % 0x10 > 0xf0, Overflows(a, v, sum, 0x80),
              (a + v + carry) % 0x100 == 0, BitSet(sum, 0x80))
    else
      var sum := v + a + carry;
      Sum6510(Lo(sum), sum > 0xff, Overflows(a, v, sum, 0x80), Lo(sum) == 0, BitSet(Lo(sum), 0x80))
  }

  /** Accumulator, carry and overflow agree with the 65816 on all bytes, packed decimal or not,
      in both modes, and so do any chains of them. */
  lemma SameSum(a: Byte, v: Byte, carry: int, decimal: bool)
    requires 0 <= carry <= 1
    ensures var r, q := Adc8(a, v, carry, decimal), Adc6510(a, v, carry, decimal);
            q.value == Lo(r.value) && q.carry == r.carry && q.overflow == r.overflow
  {
    if decimal {
      var low := a % 0x10 + v % 0x10 + carry;
      assert low > 9 <==> (if low > 9 then low + 6 else low) > 0xf;
      var sum := (if low > 9 then low + 6 else low) % 0x10 + (a - a % 0x10) + (v - v % 0x10) +
        if low > 9 then 0x10 else 0;
      HighNibble(sum);
    }
  }

  lemma HighNibble(sum: int)
    requires 0 <= sum < 0x200
    ensures sum % 0x200 - sum % 0x10 > 0x90 <==> sum > 0x9f
    ensures var full := if sum > 0x9f then sum + 0x60 else sum; full % 0x1000 - full % 0x10 > 0xf0 <==> full > 0xff
  {
  }

  function AddChain6510(xs: seq<Byte>, ys: seq<Byte>, carry: bool): (r: (seq<Byte>, bool))
    requires |xs| == |ys|
  {
    if xs == [] then ([], carry)
    else
      var first := Adc6510(xs[0], ys[0], One(carry), true);
      var (rest, out) := AddChain6510(xs[1..], ys[1..], first.carry);
      ([first.value] + rest, out)
  }

  lemma {:induction false} SameChain(xs: seq<Byte>, ys: seq<Byte>, carry: bool)
    requires |xs| == |ys|
    ensures AddChain6510(xs, ys, carry) == AddChain(xs, ys, carry)
    decreases xs
  {
    if xs != [] {
      SameSum(xs[0], ys[0], One(carry), true);
      SameChain(xs[1..], ys[1..], Adc8(xs[0], ys[0], One(carry), true).carry);
    }
  }

  /** The columns of a packed sum before the last correction, as the 6510 has them. */
  lemma Columns6510(ah: int, al: int, vh: int, vl: int, carry: int, q: Sum6510)
    requires 0 <= ah <= 9 && 0 <= al <= 9 && 0 <= vh <= 9 && 0 <= vl <= 9 && 0 <= carry <= 1
    requires q == Adc6510(0x10 * ah + al, 0x10 * vh + vl, carry, true)
    ensures var low := al + vl + carry;
            var high := ah + vh + One(low > 9);
            q.sign == (high / 8 % 2 == 1) && q.zero == (0x10 * (ah + vh) + low == 0 || 0x10 * (ah + vh) + low == 0x100)
  {
    hide Overflows, BitSet, Lo;
    Digits(ah, al);
    Digits(vh, vl);
    var low := al + vl + carry;
    var left := if low > 9 then low - 10 else low;
    SignBit(ah + vh + One(low > 9), left);
    assert (if low > 9 then low + 6 else low) % 0x10 == left by {
      Digits(if low > 9 then 1 else 0, left);
    }
    ZeroByte(0x10 * (ah + vh) + low);
  }

  lemma ZeroByte(n: int)
    requires 0 <= n < 0x200
    ensures n % 0x100 == 0 <==> n == 0 || n == 0x100
  {
  }

  lemma SignBit(high: int, low: int)
    requires 0 <= high < 0x20 && 0 <= low < 0x10
    ensures BitSet(0x10 * high + low, 0x80) == (high / 8 % 2 == 1)
  {
    assert (0x10 * high + low) / 0x80 == high / 8;
  }

  /** What the 65816 leaves in the accumulator, digit by digit. */
  lemma Columns65816(ah: int, al: int, vh: int, vl: int, carry: int, r: Sum)
    requires 0 <= ah <= 9 && 0 <= al <= 9 && 0 <= vh <= 9 && 0 <= vl <= 9 && 0 <= carry <= 1
    requires r == Adc8(0x10 * ah + al, 0x10 * vh + vl, carry, true)
    ensures var low := al + vl + carry;
            var high := ah + vh + One(low > 9);
            Lo(r.value) == 0x10 * (if high > 9 then high - 10 else high) + if low > 9 then low - 10 else low
  {
    SumColumns(ah, al, vh, vl, carry, r);
  }

  /** After adding packed digits the Z of the two processors is the same exactly unless the sum is 100, or
      the bytes add up to 100 hexadecimal. */
  lemma ZeroAgrees(a: Byte, v: Byte, carry: int)
    requires IsBcd(a) && IsBcd(v) && 0 <= carry <= 1
    ensures (Lo(Adc8(a, v, carry, true).value) == 0) == Adc6510(a, v, carry, true).zero
       <==> Bcd(a) + Bcd(v) + carry != 100 && a + v + carry != 0x100
  {
    hide Adc8, Adc6510;
    Columns65816(a / 0x10, a % 0x10, v / 0x10, v % 0x10, carry, Adc8(a, v, carry, true));
    Columns6510(a / 0x10, a % 0x10, v / 0x10, v % 0x10, carry, Adc6510(a, v, carry, true));
  }

  /** And the N exactly unless the sum is from 100 to 159, or from 180 up. */
  lemma SignAgrees(a: Byte, v: Byte, carry: int)
    requires IsBcd(a) && IsBcd(v) && 0 <= carry <= 1
    ensures BitSet(Lo(Adc8(a, v, carry, true).value), 0x80) == Adc6510(a, v, carry, true).sign
       <==> Bcd(a) + Bcd(v) + carry < 100 || 160 <= Bcd(a) + Bcd(v) + carry < 180
  {
    hide Adc8, Adc6510, BitSet, Lo;
    var ah, al, vh, vl := a / 0x10, a % 0x10, v / 0x10, v % 0x10;
    Columns65816(ah, al, vh, vl, carry, Adc8(a, v, carry, true));
    Columns6510(ah, al, vh, vl, carry, Adc6510(a, v, carry, true));
    var low := al + vl + carry;
    var high := ah + vh + One(low > 9);
    SignBit(if high > 9 then high - 10 else high, if low > 9 then low - 10 else low);
  }

  /** Outside decimal mode both always agree. */
  lemma BinaryFlagsAgree(a: Byte, v: Byte, carry: int)
    requires 0 <= carry <= 1
    ensures var r, q := Adc8(a, v, carry, false), Adc6510(a, v, carry, false);
            (Lo(r.value) == 0) == q.zero && BitSet(Lo(r.value), 0x80) == q.sign
  {
  }

  /** The zero flags do not agree: 99 + 1 is 00 for the 65816, but not zero for the 6510. */
  lemma ZeroDiffers()
    ensures Lo(Adc8(0x99, 1, 0, true).value) == 0 && !Adc6510(0x99, 1, 0, true).zero
  {
    hide Overflows, BitSet;
  }

  // ----- the instructions

  /** ADC and SBC with an 8-bit accumulator in decimal mode, from any source. */
  lemma DecimalInstructions(s: State, from: Source)
    requires s.M8() && s.Has(P_DECIMAL) && IsBcd(s.A()) && IsBcd(ReadSource(s, from, true))
    ensures var t, v := Execute(s, Alu(Adc, from)), ReadSource(s, from, true);
            IsBcd(t.A()) && Bcd(t.A()) + 100 * t.Carry() == Bcd(s.A()) + Bcd(v) + s.Carry()
    ensures var t, v := Execute(s, Alu(Sbc, from)), ReadSource(s, from, true);
            IsBcd(t.A()) && Bcd(t.A()) == Bcd(s.A()) - Bcd(v) - (1 - s.Carry()) + 100 * (1 - t.Carry())
  {
    hide ReadSource, IsBcd, Bcd, Adc8, Sbc8;
    var v: Byte := ReadSource(s, from, true);
    AddsDigits(s.A(), v, s.Carry(), Adc8(s.A(), v, s.Carry(), true));
    SubtractsDigits(s.A(), v, s.Carry(), Sbc8(s.A(), v, s.Carry(), true));
    SumSet(s, Adc8(s.A(), v, s.Carry(), true));
    SumSet(s, Sbc8(s.A(), v, s.Carry(), true));
  }

  lemma SumSet(s: State, sum: Sum)
    ensures SetSum(s, sum, true).A() == Lo(sum.value) && SetSum(s, sum, true).Carry() == One(sum.carry)
  {
  }
}
