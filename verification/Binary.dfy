/** ADC and SBC outside decimal mode, at either width: what one instruction computes and what a chain of
    them does (emulator/65816core.c). */
module Binary {
  import opened Primitives
  import opened Machine
  import opened Instructions
  import opened Opcodes
  import opened Widths

  /** The next instruction is this operation of the accumulator, with decimal mode off. */
  predicate Runs(s: State, op: AluOp) {
    !s.Has(P_DECIMAL) && var i := Decode(s.Fetch(s.pc)); i.Alu? && i.op == op
  }

  /** The operand it reads. */
  function Operand(s: State): (v: Word)
    ensures v < Size(s.M8())
  {
    match Decode(s.Fetch(s.pc))
    case Alu(_, from) => ReadSource(s, from, s.M8())
    case _ => 0
  }

  /** Carry, overflow, N, Z and the accumulator as they should be after an addition or subtraction that comes
      to `total`, and to `signed` if all are read as signed numbers; the rest of the machine is as it was. */
  predicate Computed(s: State, t: State, total: int, signed: int, carry: bool) {
    var bits8 := s.M8();
    && t.Acc(bits8) == Cut(total, bits8) && (bits8 ==> Hi(t.c) == Hi(s.c))
    && t.Has(P_CARRY) == carry
    && t.Has(P_OVERFLOW) == !InSignedRange(signed, bits8)
    && Shown(t, t.Acc(bits8), bits8)
    && t == s.(c := t.c, n := t.n, z := t.z, p := t.p, pc := t.pc)
    && t.p & !(P_CARRY | P_OVERFLOW) == s.p & !(P_CARRY | P_OVERFLOW)
  }

  /** What SetSum leaves, whatever the sum. */
  lemma SumSets(s: State, sum: Sum, bits8: bool, t: State)
    requires t == SetSum(s, sum, bits8)
    ensures t.Acc(bits8) == Cut(sum.value, bits8) && (bits8 ==> Hi(t.c) == Hi(s.c))
    ensures t.Has(P_CARRY) == sum.carry && t.Has(P_OVERFLOW) == sum.overflow && Shown(t, t.Acc(bits8), bits8)
    ensures t == s.(c := t.c, n := t.n, z := t.z, p := t.p)
    ensures t.p & !(P_CARRY | P_OVERFLOW) == s.p & !(P_CARRY | P_OVERFLOW)
  {
    var u := s.Flag(P_OVERFLOW, sum.overflow).Flag(P_CARRY, sum.carry);
    Shows(u, sum.value, bits8, u.SetNZ(sum.value, bits8));
    AccumulatorSet(u.SetNZ(sum.value, bits8), sum.value, bits8);
    FlagsSet(s.p, sum.overflow, sum.carry, u.p);
  }

  lemma AccumulatorSet(s: State, v: int, bits8: bool)
    ensures var t := s.SetAcc(v, bits8); t.Acc(bits8) == Cut(v, bits8) && (bits8 ==> Hi(t.c) == Hi(s.c))
  {
    if bits8 {
      WordOf(s.c);
      NewLow(Hi(s.c), Lo(v));
    }
  }

  lemma NewLow(high: Byte, low: Byte)
    ensures Lo(0x100 * high + low) == low && Hi(0x100 * high + low) == high
  {
  }

  lemma FlagsSet(p: bv8, overflow: bool, carry: bool, q: bv8)
    requires q == WithBits(WithBits(p, P_OVERFLOW, overflow), P_CARRY, carry)
    ensures (q & P_CARRY != 0) == carry && (q & P_OVERFLOW != 0) == overflow
    ensures q & !(P_CARRY | P_OVERFLOW) == p & !(P_CARRY | P_OVERFLOW)
  {
  }

  lemma TopBit(r: int, bits8: bool)
    requires 0 <= r < 2 * Size(bits8)
    ensures var top := Half(bits8); BitSet(r, top) <==> top <= r < 2 * top || r >= 3 * top
  {
    if bits8 {
      assert r / 0x80 == if r < 0x80 then 0 else if r < 0x100 then 1 else if r < 0x180 then 2 else 3;
    } else {
      assert r / 0x8000 == if r < 0x8000 then 0 else if r < 0x10000 then 1 else if r < 0x18000 then 2 else 3;
    }
  }

  /** The top bits tell overflow. */
  lemma SumOverflows(a: Word, v: Word, carry: int, bits8: bool)
    requires a < Size(bits8) && v < Size(bits8) && 0 <= carry <= 1
    ensures Overflows(a, v, a + v + carry, Half(bits8)) <==>
              !InSignedRange(Signed(a, bits8) + Signed(v, bits8) + carry, bits8)
  {
    hide BitSet;
    TopBit(a, bits8);
    TopBit(v, bits8);
    TopBit(a + v + carry, bits8);
  }

  lemma DifferenceOverflows(a: Word, v: Word, carry: int, bits8: bool)
    requires a < Size(bits8) && v < Size(bits8) && 0 <= carry <= 1
    ensures Underflows(a, v, carry + (Size(bits8) - 1 - v) + a, Half(bits8)) <==>
              !InSignedRange(Signed(a, bits8) - Signed(v, bits8) - (1 - carry), bits8)
  {
    hide BitSet;
    TopBit(a, bits8);
    TopBit(v, bits8);
    TopBit(carry + (Size(bits8) - 1 - v) + a, bits8);
  }

  /** The step is the operation, and then on to the next instruction. */
  lemma Operates(s: State, t: State) returns (k: nat)
    requires Decode(s.Fetch(s.pc)).Alu? && t == Step(s)
    ensures t == Accumulate(s, Decode(s.Fetch(s.pc)).op, Operand(s), s.M8()).Skip(k)
  {
    hide Decode, Accumulate, ReadSource, State.Skip, SourceLength;
    k := SourceLength(Decode(s.Fetch(s.pc)).from, s.M8());
  }

  lemma SumComputed(s: State, sum: Sum, total: int, signed: int, carry: bool, k: nat)
    requires Cut(sum.value, s.M8()) == Cut(total, s.M8()) && sum.carry == carry
    requires sum.overflow == !InSignedRange(signed, s.M8())
    ensures Computed(s, SetSum(s, sum, s.M8()).Skip(k), total, signed, carry)
  {
    SumSets(s, sum, s.M8(), SetSum(s, sum, s.M8()));
    hide SetSum, Cut, InSignedRange;
  }

  /** One ADC. */
  lemma Adds(s: State, v: Word, t: State)
    requires Runs(s, Adc) && v == Operand(s) && t == Step(s)
    ensures var a, bits8 := s.Acc(s.M8()), s.M8();
            Computed(s, t, a + v + s.Carry(), Signed(a, bits8) + Signed(v, bits8) + s.Carry(),
                     a + v + s.Carry() >= Size(bits8))
  {
    hide Decode, Step, ReadSource, Overflows, SetSum, State.Skip, State.Has, InSignedRange, Computed;
    var a, bits8 := s.Acc(s.M8()), s.M8();
    var k := Operates(s, t);
    SumOverflows(a, v, s.Carry(), bits8);
    SumComputed(s, AdcSum(s, v, bits8), a + v + s.Carry(), Signed(a, bits8) + Signed(v, bits8) + s.Carry(),
                a + v + s.Carry() >= Size(bits8), k);
  }

  /** One SBC: the carry means that nothing was borrowed, before and after. */
  lemma Subtracts(s: State, v: Word, t: State)
    requires Runs(s, Sbc) && v == Operand(s) && t == Step(s)
    ensures var a, bits8, borrow := s.Acc(s.M8()), s.M8(), 1 - s.Carry();
            Computed(s, t, a - v - borrow, Signed(a, bits8) - Signed(v, bits8) - borrow, a >= v + borrow)
  {
    hide Decode, Step, ReadSource, Underflows, SetSum, State.Skip, State.Has, InSignedRange, Computed;
    var a, bits8, borrow := s.Acc(s.M8()), s.M8(), 1 - s.Carry();
    var k := Operates(s, t);
    DifferenceOverflows(a, v, s.Carry(), bits8);
    SumComputed(s, SbcSum(s, v, bits8), a - v - borrow, Signed(a, bits8) - Signed(v, bits8) - borrow,
                a >= v + borrow, k);
  }

  // ----- chains, least significant part first

  /** A run of such instructions, given by the states each of them starts in: whatever happens between two of
      them, the carry and the width stay. */
  ghost predicate Chain(ss: seq<State>, op: AluOp, bits8: bool, carry: int) {
    ss != [] ==> Runs(ss[0], op) && ss[0].M8() == bits8 && ss[0].Carry() == carry &&
                 Chain(ss[1..], op, bits8, Step(ss[0]).Carry())
  }

  function Accumulators(ss: seq<State>, bits8: bool): (vs: seq<Word>)
    ensures |vs| == |ss| && Fit(vs, bits8)
  {
    if ss == [] then [] else [ss[0].Acc(bits8)] + Accumulators(ss[1..], bits8)
  }

  function Operands(ss: seq<State>): (vs: seq<Word>)
    ensures |vs| == |ss|
  {
    if ss == [] then [] else [Operand(ss[0])] + Operands(ss[1..])
  }

  function Results(ss: seq<State>, bits8: bool): (vs: seq<Word>)
    ensures |vs| == |ss| && Fit(vs, bits8)
  {
    if ss == [] then [] else [Step(ss[0]).Acc(bits8)] + Results(ss[1..], bits8)
  }

  function CarryOut(ss: seq<State>, carry: int): int {
    if ss == [] then carry else CarryOut(ss[1..], Step(ss[0]).Carry())
  }

  /** The number these bytes or words make up, and how many there are of that length. */
  function Value(vs: seq<Word>, bits8: bool): nat {
    if vs == [] then 0 else vs[0] + Size(bits8) * Value(vs[1..], bits8)
  }

  function Numbers(n: nat, bits8: bool): nat {
    if n == 0 then 1 else Size(bits8) * Numbers(n - 1, bits8)
  }

  ghost predicate Fit(vs: seq<Word>, bits8: bool) {
    forall i :: 0 <= i < |vs| ==> vs[i] < Size(bits8)
  }

  lemma {:induction false} ValueBound(vs: seq<Word>, bits8: bool)
    requires Fit(vs, bits8)
    ensures Value(vs, bits8) < Numbers(|vs|, bits8)
  {
    if vs != [] {
      ValueBound(vs[1..], bits8);
    }
  }

  lemma FirstPart(a: Word, x: int, b: Word, y: int, bits8: bool)
    requires a < Size(bits8) && b < Size(bits8) && a + Size(bits8) * x == b + Size(bits8) * y
    ensures a == b && x == y
  {
  }

  lemma {:induction false} ValueDetermines(us: seq<Word>, vs: seq<Word>, bits8: bool)
    requires |us| == |vs| && Fit(us, bits8) && Fit(vs, bits8) && Value(us, bits8) == Value(vs, bits8)
    ensures us == vs
  {
    if us != [] {
      FirstPart(us[0], Value(us[1..], bits8), vs[0], Value(vs[1..], bits8), bits8);
      ValueDetermines(us[1..], vs[1..], bits8);
      assert us == [us[0]] + us[1..] && vs == [vs[0]] + vs[1..];
    }
  }

  /** What a carry out of n bytes or words is worth. */
  function Over(carry: int, n: nat, bits8: bool): nat {
    if carry == 1 then Numbers(n, bits8) else 0
  }

  lemma {:induction false} CarryIsBit(ss: seq<State>, carry: int)
    requires 0 <= carry <= 1
    ensures 0 <= CarryOut(ss, carry) <= 1
  {
    hide Step;
    if ss != [] {
      CarryIsBit(ss[1..], Step(ss[0]).Carry());
    }
  }

  lemma ValueFirst(v: Word, vs: seq<Word>, bits8: bool)
    ensures Value([v] + vs, bits8) == v + Size(bits8) * Value(vs, bits8)
  {
    assert ([v] + vs)[1..] == vs;
  }

  lemma AddsPart(s: State, bits8: bool)
    requires Runs(s, Adc) && s.M8() == bits8
    ensures Step(s).Acc(bits8) + Size(bits8) * Step(s).Carry() == s.Acc(bits8) + Operand(s) + s.Carry()
  {
    hide Step, Runs, Operand, Decode, State.Has, State.M8, InSignedRange, Shown, Hi;
    Adds(s, Operand(s), Step(s));
  }

  lemma SubtractsPart(s: State, bits8: bool)
    requires Runs(s, Sbc) && s.M8() == bits8
    ensures Step(s).Acc(bits8) + Operand(s) + 1 - s.Carry() == s.Acc(bits8) + Size(bits8) * (1 - Step(s).Carry())
  {
    hide Step, Runs, Operand, Decode, State.Has, State.M8, InSignedRange, Shown, Hi;
    Subtracts(s, Operand(s), Step(s));
  }

  /** Any number of ADCs add numbers that long: sum and last carry make up the true sum. */
  lemma {:induction false} ChainAdds(ss: seq<State>, bits8: bool, carry: int)
    requires Chain(ss, Adc, bits8, carry) && 0 <= carry <= 1
    ensures Value(Results(ss, bits8), bits8) + Over(CarryOut(ss, carry), |ss|, bits8) ==
            Value(Accumulators(ss, bits8), bits8) + Value(Operands(ss), bits8) + carry
    decreases |ss|
  {
    hide Fit;
    hide Step, Runs, Operand, State.M8, State.Acc;
    if ss != [] {
      AddsPart(ss[0], bits8);
      ChainAdds(ss[1..], bits8, Step(ss[0]).Carry());
      ValueFirst(Step(ss[0]).Acc(bits8), Results(ss[1..], bits8), bits8);
      ValueFirst(ss[0].Acc(bits8), Accumulators(ss[1..], bits8), bits8);
      ValueFirst(Operand(ss[0]), Operands(ss[1..]), bits8);
      hide Value;
    }
  }

  /** And any number of SBCs subtract, the last carry saying that nothing was borrowed. */
  lemma {:induction false} ChainSubtracts(ss: seq<State>, bits8: bool, carry: int)
    requires Chain(ss, Sbc, bits8, carry) && 0 <= carry <= 1
    ensures Value(Results(ss, bits8), bits8) + Value(Operands(ss), bits8) + 1 - carry ==
            Value(Accumulators(ss, bits8), bits8) + Over(1 - CarryOut(ss, carry), |ss|, bits8)
    decreases |ss|
  {
    hide Fit;
    hide Step, Runs, Operand, State.M8, State.Acc;
    if ss != [] {
      SubtractsPart(ss[0], bits8);
      ChainSubtracts(ss[1..], bits8, Step(ss[0]).Carry());
      CarryIsBit(ss[1..], Step(ss[0]).Carry());
      ValueFirst(Step(ss[0]).Acc(bits8), Results(ss[1..], bits8), bits8);
      ValueFirst(ss[0].Acc(bits8), Accumulators(ss[1..], bits8), bits8);
      ValueFirst(Operand(ss[0]), Operands(ss[1..]), bits8);
      hide Value;
    }
  }

  lemma BorrowExactly(ss: seq<State>, bits8: bool, carry: int)
    requires Chain(ss, Sbc, bits8, carry) && 0 <= carry <= 1
    ensures CarryOut(ss, carry) == 1 <==>
            Value(Accumulators(ss, bits8), bits8) >= Value(Operands(ss), bits8) + 1 - carry
  {
    hide Chain, Step, Operands, Accumulators, Results, CarryOut, Value;
    ChainSubtracts(ss, bits8, carry);
    CarryIsBit(ss, carry);
    ValueBound(Results(ss, bits8), bits8);
  }

  /** Subtracting what was added gives back the number, and the opposite carry. */
  lemma SubtractionUndoesAddition(ss: seq<State>, us: seq<State>, bits8: bool, carry: int)
    requires |ss| == |us| && 0 <= carry <= 1
    requires Chain(ss, Adc, bits8, carry) && Chain(us, Sbc, bits8, 1 - carry)
    requires Accumulators(us, bits8) == Results(ss, bits8) && Operands(us) == Operands(ss)
    ensures Results(us, bits8) == Accumulators(ss, bits8) && CarryOut(us, 1 - carry) == 1 - CarryOut(ss, carry)
  {
    hide Step, Chain, Operands, Accumulators, Results, CarryOut, Value;
    ChainAdds(ss, bits8, carry);
    ChainSubtracts(us, bits8, 1 - carry);
    CarryIsBit(ss, carry);
    CarryIsBit(us, 1 - carry);
    ValueBound(Accumulators(ss, bits8), bits8);
    ValueBound(Results(us, bits8), bits8);
    ValueDetermines(Results(us, bits8), Accumulators(ss, bits8), bits8);
  }
}
