/** What the operations on registers and memory compute, bit by bit and as numbers (emulator/65816core.c). */
module Operations {
  import opened Primitives
  import opened Machine
  import opened Instructions
  import opened Opcodes
  import opened Access
  import opened Widths
  import opened Binary

  /** One step from s, executing this operation of the accumulator, leads to t. */
  predicate Executes(s: State, op: AluOp, t: State) {
    var i := Decode(s.Fetch(s.pc));
    i.Alu? && i.op == op && t == Step(s)
  }

  // ----- bits of the accumulator

  function Bits(bits8: bool): nat {
    if bits8 then 8 else 16
  }

  /** The accumulator has this value, shown in N and Z, its other half and the rest of the machine are as before. */
  predicate AccumulatorIs(s: State, t: State, v: Word, bits8: bool) {
    && t.Acc(bits8) == v && Shown(t, v, bits8) && (bits8 ==> Hi(t.c) == Hi(s.c))
    && t == s.(c := t.c, n := t.n, z := t.z, pc := t.pc)
  }

  lemma LogicalSets(s: State, v: Word, bits8: bool, k: nat)
    requires v < Size(bits8)
    ensures AccumulatorIs(s, Logical(s, v, bits8).Skip(k), v, bits8)
  {
    hide State.SetNZ;
    var t := s.SetAcc(v, bits8);
    AccumulatorSet(s, v, bits8);
    Shows(t, v, bits8, t.SetNZ(v, bits8));
    assert Cut(v, bits8) == v;
    hide Cut, Lo, Hi;
  }

  /** Bitwise operations stay within the width. */
  lemma BitsFit(a: Word, v: Word, bits8: bool)
    requires a < Size(bits8) && v < Size(bits8)
    ensures BitAnd(a, v) < Size(bits8) && BitOr(a, v) < Size(bits8) && BitXor(a, v) < Size(bits8)
  {
    hide Bitwise;
    Weights();
    BitwiseFits(AndBits, a, v, 16, Bits(bits8));
    BitwiseFits(OrBits, a, v, 16, Bits(bits8));
    BitwiseFits(XorBits, a, v, 16, Bits(bits8));
  }

  predicate Combines(op: AluOp, r: bool, a: bool, v: bool) {
    (op == Ora ==> r == (a || v)) && (op == And ==> r == (a && v)) && (op == Eor ==> r == (a != v))
  }

  /** ORA, AND and EOR: each bit of the accumulator with that of the operand. */
  lemma BitByBitResult(s: State, op: AluOp, t: State)
    requires Executes(s, op, t) && (op == Ora || op == And || op == Eor)
    ensures AccumulatorIs(s, t, t.Acc(s.M8()), s.M8())
    ensures forall k :: 0 <= k < Bits(s.M8()) ==>
              Combines(op, HasBit(t.Acc(s.M8()), k), HasBit(s.Acc(s.M8()), k), HasBit(Operand(s), k))
  {
    var bits8, a, v := s.M8(), s.Acc(s.M8()), Operand(s);
    hide Decode, Step, Operand, Shown, BitAnd, BitOr, BitXor, HasBit, Logical, State.Skip, State.M8;
    var k := Operates(s, t);
    BitsFit(a, v, bits8);
    var r := if op == Ora then BitOr(a, v) else if op == And then BitAnd(a, v) else BitXor(a, v);
    LogicalSets(s, r, bits8, k);
    forall k | 0 <= k < Bits(bits8)
      ensures Combines(op, HasBit(r, k), HasBit(a, k), HasBit(v, k))
    {
      BitByBit(a, v, k);
    }
  }

  /** LDA. */
  lemma LoadsAccumulator(s: State, t: State)
    requires Executes(s, Lda, t)
    ensures AccumulatorIs(s, t, Operand(s), s.M8())
  {
    hide Decode, Step, Operand, AccumulatorIs, Logical, State.Skip, State.M8;
    var k := Operates(s, t);
    LogicalSets(s, Operand(s), s.M8(), k);
  }

  lemma {:induction false} NothingSet(k: nat)
    ensures !HasBit(0, k)
  {
    if k > 0 {
      NothingSet(k - 1);
    }
  }

  lemma {:induction false} SomethingSet(v: nat, n: nat) returns (k: nat)
    requires 0 < v < Weight(n)
    ensures k < n && HasBit(v, k)
  {
    if v % 2 == 1 {
      k := 0;
    } else {
      k := SomethingSet(v / 2, n - 1);
      k := k + 1;
    }
  }

  /** Two values have a bit in common. */
  ghost predicate Meet(a: Word, v: Word, bits8: bool) {
    exists k :: 0 <= k < Bits(bits8) && HasBit(a, k) && HasBit(v, k)
  }

  lemma AndMeets(a: Word, v: Word, bits8: bool)
    requires a < Size(bits8) && v < Size(bits8)
    ensures BitAnd(v, a) != 0 <==> Meet(a, v, bits8)
  {
    hide HasBit, Bitwise, BitAnd;
    Weights();
    BitsFit(v, a, bits8);
    if BitAnd(v, a) != 0 {
      var k := SomethingSet(BitAnd(v, a), Bits(bits8));
      BitByBit(v, a, k);
    } else if Meet(a, v, bits8) {
      var k :| 0 <= k < Bits(bits8) && HasBit(a, k) && HasBit(v, k);
      BitByBit(v, a, k);
      NothingSet(k);
    }
  }

  lemma Tested(s: State, v: Word, bits8: bool)
    requires v < Size(bits8)
    ensures Accumulate(s, BitImm, v, bits8) == TestZero(s, v, bits8)
    ensures Accumulate(s, Bit, v, bits8) == TestZero(TestTop(s, v, Half(bits8)), v, bits8)
  {
    hide TestZero, TestTop;
  }

  lemma TestedTop(s: State, v: Word, bits8: bool, t: State)
    requires v < Size(bits8) && t == TestTop(s, v, Half(bits8))
    ensures t.Sign() == (v >= Half(bits8))
    ensures t.Has(P_OVERFLOW) == BitSet(v, if bits8 then 0x40 else 0x4000)
    ensures t == s.(n := t.n, p := t.p) && t.p & !P_OVERFLOW == s.p & !P_OVERFLOW
  {
    TopBit(v, bits8);
    hide BitSet;
  }

  /** Z says that accumulator and operand have no bit in common, N and V are the two top bits of the operand;
      the accumulator stays. */
  ghost predicate BitTested(s: State, t: State, v: Word, bits8: bool) {
    && t.Zero() == !Meet(s.Acc(bits8), v, bits8)
    && t.Sign() == (v >= Half(bits8)) && t.Has(P_OVERFLOW) == BitSet(v, if bits8 then 0x40 else 0x4000)
    && t == s.(n := t.n, z := t.z, p := t.p, pc := t.pc) && t.p & !P_OVERFLOW == s.p & !P_OVERFLOW
  }

  lemma TestGives(s: State, v: Word, bits8: bool, k: nat)
    requires v < Size(bits8)
    ensures BitTested(s, TestZero(TestTop(s, v, Half(bits8)), v, bits8).Skip(k), v, bits8)
  {
    hide BitAnd, Meet, TestTop, State.Has, BitSet;
    AndMeets(s.Acc(bits8), v, bits8);
    var u := TestTop(s, v, Half(bits8));
    TestedTop(s, v, bits8, u);
    TestSees(u, s, v, bits8, k, TestZero(u, v, bits8).Skip(k));
    hide TestZero;
  }

  lemma TestSees(u: State, s: State, v: Word, bits8: bool, k: nat, t: State)
    requires u == s.(n := u.n, p := u.p) && t == TestZero(u, v, bits8).Skip(k)
    ensures t == u.(z := t.z, pc := t.pc) && t.Zero() == (BitAnd(v, s.Acc(bits8)) == 0)
    ensures t.Sign() == u.Sign() && t.Has(P_OVERFLOW) == u.Has(P_OVERFLOW)
  {
    hide BitAnd;
  }

  /** BIT. */
  lemma TestsBits(s: State, t: State)
    requires Executes(s, Bit, t)
    ensures BitTested(s, t, Operand(s), s.M8())
  {
    hide Decode, Step, Operand, State.M8, Accumulate, TestTop, TestZero, BitTested;
    var k := Operates(s, t);
    Tested(s, Operand(s), s.M8());
    TestGives(s, Operand(s), s.M8(), k);
  }

  /** The immediate form sets Z alone. */
  lemma TestsOnly(s: State, t: State)
    requires Executes(s, BitImm, t)
    ensures t.Zero() == !Meet(s.Acc(s.M8()), Operand(s), s.M8()) && t == s.(z := t.z, pc := t.pc)
  {
    hide Decode, Step, Operand, BitAnd, Meet, State.M8, Accumulate, TestZero;
    var k := Operates(s, t);
    AndMeets(s.Acc(s.M8()), Operand(s), s.M8());
    Tested(s, Operand(s), s.M8());
    TestSees(s, s, Operand(s), s.M8(), k, t);
  }

  // ----- shifts and steps, of the accumulator or of memory

  /** One step from s, executing this operation on the accumulator or on memory, leads to t. */
  predicate Modifies(s: State, op: RmwOp, target: Target, t: State) {
    Decode(s.Fetch(s.pc)) == Rmw(op, target) && t == Step(s)
  }

  /** What stands in another state where the instruction at s has its operand. */
  function OperandIn(t: State, s: State, target: Target): (v: Word)
    ensures s.M8() ==> v < 0x100
  {
    match target
    case Acc => t.Acc(s.M8())
    case Cell(m) => ReadAt(t, m, EffectiveAddress(s, m), s.M8())
  }

  /** The bit a shift loses. */
  predicate Lost(op: RmwOp, v: Word, r: int, bits8: bool) {
    if op.Asl? || op.Rol? then BitSet(r, Size(bits8)) else v % 2 == 1
  }

  predicate IsShift(op: RmwOp) {
    op.Asl? || op.Rol? || op.Lsr? || op.Ror?
  }

  lemma FlagCases(s: State, op: RmwOp, v: Word, r: int, bits8: bool, u: State)
    requires u == ModifyFlags(s, op, v, r, bits8)
    ensures IsShift(op) ==> u == s.Flag(P_CARRY, Lost(op, v, r, bits8)).SetNZ(r, bits8)
    ensures op.Inc? || op.Dec? ==> u == s.SetNZ(r, bits8)
    ensures op.Tsb? || op.Trb? ==> u == TestZero(s, v, bits8)
  {
    hide State.SetNZ, State.Flag, TestZero, BitSet;
  }

  lemma FlagsChange(s: State, op: RmwOp, v: Word, r: int, bits8: bool, u: State)
    requires u == ModifyFlags(s, op, v, r, bits8)
    ensures u == s.(n := u.n, z := u.z, p := if IsShift(op) then WithBits(s.p, P_CARRY, Lost(op, v, r, bits8)) else s.p)
  {
    hide ModifyFlags, State.SetNZ, BitAnd, WithBits, Lost, Shown;
    FlagCases(s, op, v, r, bits8, u);
    if IsShift(op) {
      Shows(s.Flag(P_CARRY, Lost(op, v, r, bits8)), r, bits8, u);
    } else if op.Inc? || op.Dec? {
      Shows(s, r, bits8, u);
    }
  }

  lemma FlagsOnly(s: State, op: RmwOp, v: Word, r: int, bits8: bool, u: State)
    requires u == ModifyFlags(s, op, v, r, bits8)
    ensures u == s.(n := u.n, z := u.z, p := u.p) && u.p & !P_CARRY == s.p & !P_CARRY && u.M8() == s.M8()
  {
    hide ModifyFlags, WithBits, Lost;
    FlagsChange(s, op, v, r, bits8, u);
    CarryOnly(s.p, Lost(op, v, r, bits8), u.p);
  }

  lemma CarryOnly(p: bv8, on: bool, q: bv8)
    requires q == WithBits(p, P_CARRY, on) || q == p
    ensures q & !P_CARRY == p & !P_CARRY && (q & P_M != 0) == (p & P_M != 0)
    ensures q == WithBits(p, P_CARRY, on) ==> (q & P_CARRY != 0) == on
  {
  }

  lemma ReplacesInMemory(s: State, op: RmwOp, m: Mode, t: State, u: State)
    requires t == ReadModifyWrite(s, op, Cell(m))
    requires var v := ReadAt(s, m, EffectiveAddress(s, m), s.M8());
             u == ModifyFlags(s, op, v, Modified(s, op, v, s.M8()), s.M8())
    ensures ReadAt(t, m, EffectiveAddress(s, m), s.M8()) ==
            Cut(Modified(s, op, ReadAt(s, m, EffectiveAddress(s, m), s.M8()), s.M8()), s.M8())
    ensures t == u.(ram := t.ram, pc := t.pc)
  {
    var ea := EffectiveAddress(s, m);
    ReplacesOperand(s, op, m, ea, t, 0);
    hide EffectiveAddress, Modified, ModifyFlags, ReadAt, NextAddress;
  }

  lemma ReplacesAccumulator(s: State, op: RmwOp, t: State, u: State)
    requires t == ReadModifyWrite(s, op, Acc)
    requires u == ModifyFlags(s, op, s.Acc(s.M8()), Modified(s, op, s.Acc(s.M8()), s.M8()), s.M8())
    ensures t.Acc(s.M8()) == Cut(Modified(s, op, s.Acc(s.M8()), s.M8()), s.M8())
    ensures t == u.(c := t.c, pc := t.pc) && (s.M8() ==> Hi(t.c) == Hi(u.c))
  {
    hide Modified, ModifyFlags;
    AccumulatorSet(u, Modified(s, op, s.Acc(s.M8()), s.M8()), s.M8());
  }

  lemma ModifyingSteps(s: State, op: RmwOp, target: Target, t: State)
    requires Modifies(s, op, target, t)
    ensures t == ReadModifyWrite(s, op, target)
  {
    hide Decode, ReadModifyWrite;
  }

  /** The operand is replaced by the new value as far as it fits, the flags are those of the operation, and
      nothing else changes but the memory written and the program counter. */
  lemma Replaces(s: State, op: RmwOp, target: Target, t: State, v: Word, r: int, u: State)
    requires Modifies(s, op, target, t) && v == OperandIn(s, s, target)
    requires r == Modified(s, op, v, s.M8()) && u == ModifyFlags(s, op, v, r, s.M8())
    ensures OperandIn(t, s, target) == Cut(r, s.M8())
    ensures t == u.(c := t.c, ram := t.ram, pc := t.pc)
    ensures target.Acc? ==> t.ram == s.ram && (s.M8() ==> Hi(t.c) == Hi(s.c))
    ensures target.Cell? ==> t.c == s.c
  {
    hide Modifies, Modified, ModifyFlags, ReadAt, EffectiveAddress, ReadModifyWrite, State.M8;
    ModifyingSteps(s, op, target, t);
    FlagsOnly(s, op, v, r, s.M8(), u);
    match target
    case Acc => ReplacesAccumulator(s, op, t, u);
    case Cell(m) => ReplacesInMemory(s, op, m, t, u);
  }

  /** Shifts as numbers: left doubles and right halves, the bit lost goes to the carry, and a rotation takes
      the old carry in at the other end. */
  predicate ShiftedTo(op: RmwOp, v: int, carry: int, r: int, carry': int, size: int) {
    && (op == Asl ==> r + size * carry' == 2 * v)
    && (op == Rol ==> r + size * carry' == 2 * v + carry)
    && (op == Lsr ==> 2 * r + carry' == v)
    && (op == Ror ==> 2 * r + carry' == v + size * carry)
  }

  lemma LeftLoses(r: int, bits8: bool)
    requires 0 <= r < 2 * Size(bits8)
    ensures Cut(r, bits8) + Size(bits8) * (if BitSet(r, Size(bits8)) then 1 else 0) == r
  {
  }

  lemma RightLoses(v: int, carry: int, bits8: bool)
    requires 0 <= v < Size(bits8) && 0 <= carry <= 1
    ensures var r := (v + Size(bits8) * carry) / 2; 2 * r + v % 2 == v + Size(bits8) * carry && Cut(r, bits8) == r
  {
  }

  lemma ShiftNumbers(s: State, op: RmwOp, v: Word, bits8: bool, u: State, r: int)
    requires IsShift(op) && v < Size(bits8) && r == Modified(s, op, v, bits8) && u == ModifyFlags(s, op, v, r, bits8)
    ensures ShiftedTo(op, v, s.Carry(), Cut(r, bits8), u.Carry(), Size(bits8)) && Shown(u, Cut(r, bits8), bits8)
  {
    hide ModifyFlags, State.SetNZ, Shown, WithBits, Cut, Lost;
    FlagCases(s, op, v, r, bits8, u);
    var shifted := s.Flag(P_CARRY, Lost(op, v, r, bits8));
    Shows(shifted, r, bits8, u);
    CarryOnly(s.p, Lost(op, v, r, bits8), shifted.p);
    NumbersShifted(s, op, v, bits8, r);
  }

  lemma NumbersShifted(s: State, op: RmwOp, v: Word, bits8: bool, r: int)
    requires IsShift(op) && v < Size(bits8) && r == Modified(s, op, v, bits8)
    ensures ShiftedTo(op, v, s.Carry(), Cut(r, bits8), if Lost(op, v, r, bits8) then 1 else 0, Size(bits8))
  {
    hide BitSet, Cut;
    if op.Asl? || op.Rol? {
      LeftLoses(r, bits8);
    } else {
      RightLoses(v, if op.Ror? then s.Carry() else 0, bits8);
    }
  }

  lemma Shifts(s: State, op: RmwOp, target: Target, t: State)
    requires Modifies(s, op, target, t) && IsShift(op)
    ensures var v, r, bits8 := OperandIn(s, s, target), OperandIn(t, s, target), s.M8();
            && ShiftedTo(op, v, s.Carry(), r, t.Carry(), Size(bits8)) && Shown(t, r, bits8)
            && t == s.(c := t.c, ram := t.ram, n := t.n, z := t.z, p := t.p, pc := t.pc)
            && t.p & !P_CARRY == s.p & !P_CARRY
  {
    hide Modifies, Modified, ModifyFlags, OperandIn, State.M8;
    var v := OperandIn(s, s, target);
    var r := Modified(s, op, v, s.M8());
    var u := ModifyFlags(s, op, v, r, s.M8());
    Replaces(s, op, target, t, v, r, u);
    ShiftNumbers(s, op, v, s.M8(), u, r);
    FlagsOnly(s, op, v, r, s.M8(), u);
    hide ShiftedTo;
  }

  /** INC and DEC: one more or one less, modulo the size, and no carry. */
  lemma StepsByOne(s: State, op: RmwOp, target: Target, t: State)
    requires Modifies(s, op, target, t) && (op.Inc? || op.Dec?)
    ensures var v, r, bits8 := OperandIn(s, s, target), OperandIn(t, s, target), s.M8();
            && r == Cut(if op.Inc? then v + 1 else v - 1, bits8) && Shown(t, r, bits8)
            && t == s.(c := t.c, ram := t.ram, n := t.n, z := t.z, pc := t.pc)
  {
    hide Modifies, ModifyFlags, OperandIn, State.M8, State.SetNZ, Shown, Cut;
    var v := OperandIn(s, s, target);
    var r := Modified(s, op, v, s.M8());
    var u := ModifyFlags(s, op, v, r, s.M8());
    Replaces(s, op, target, t, v, r, u);
    FlagCases(s, op, v, r, s.M8(), u);
    Shows(s, r, s.M8(), u);
    StillShown(t, u, Cut(r, s.M8()), s.M8());
  }

  lemma StillShown(t: State, u: State, v: Word, bits8: bool)
    requires t.n == u.n && t.z == u.z && Shown(u, v, bits8)
    ensures Shown(t, v, bits8)
  {
  }

  /** A bit of memory, where the accumulator has this one. */
  predicate Changed(op: RmwOp, v: bool, a: bool) {
    if op.Tsb? then v || a else v && !a
  }

  /** TSB and TRB: the bits of the accumulator are set or cleared in memory, and Z says whether none of them
      was set before. */
  lemma SetsBits(s: State, op: RmwOp, target: Target, t: State)
    requires Modifies(s, op, target, t) && (op.Tsb? || op.Trb?)
    ensures var v, r, a, bits8 := OperandIn(s, s, target), OperandIn(t, s, target), s.Acc(s.M8()), s.M8();
            && (forall k :: 0 <= k < Bits(bits8) ==>
                  HasBit(r, k) == Changed(op, HasBit(v, k), HasBit(a, k)))
            && t.Zero() == !Meet(a, v, bits8)
            && t == s.(c := t.c, ram := t.ram, z := t.z, pc := t.pc)
  {
    hide Modifies, ModifyFlags, Modified, OperandIn, State.M8, HasBit, Meet, BitAnd, Bits;
    var v, a, bits8 := OperandIn(s, s, target), s.Acc(s.M8()), s.M8();
    var r := Modified(s, op, v, bits8);
    var u := ModifyFlags(s, op, v, r, bits8);
    Replaces(s, op, target, t, v, r, u);
    FlagCases(s, op, v, r, bits8, u);
    AndMeets(a, v, bits8);
    forall k | 0 <= k < Bits(bits8)
      ensures HasBit(Cut(r, bits8), k) == Changed(op, HasBit(v, k), HasBit(a, k))
    {
      BitChanged(s, op, v, a, bits8, r, k);
    }
  }

  lemma BitChanged(s: State, op: RmwOp, v: Word, a: Word, bits8: bool, r: int, k: nat)
    requires (op.Tsb? || op.Trb?) && v < Size(bits8) && a < Size(bits8) && a == s.Acc(bits8)
    requires r == Modified(s, op, v, bits8)
    requires k < Bits(bits8)
    ensures HasBit(Cut(r, bits8), k) == Changed(op, HasBit(v, k), HasBit(a, k))
  {
    hide HasBit, BitAnd, BitOr, Bitwise, State.Acc;
    if op.Tsb? {
      BitsFit(v, a, bits8);
      BitByBit(v, a, k);
    } else {
      ClearedFits(v, a, bits8);
      BitByBit(v, 0xffff - a, k);
      Inverted(a, k);
    }
    assert Cut(r, bits8) == r;
  }

  /** Taking a word from one with all its bits set turns them over. */
  lemma Inverted(a: Word, k: nat)
    requires k < 16
    ensures HasBit(0xffff - a, k) == !HasBit(a, k)
  {
    Weights();
    InvertedBits(a, 16, k);
  }

  lemma {:induction false} InvertedBits(a: nat, n: nat, k: nat)
    requires a < Weight(n) && k < n
    ensures HasBit(Weight(n) - 1 - a, k) == !HasBit(a, k)
    decreases n
  {
    assert (Weight(n) - 1 - a) / 2 == Weight(n - 1) - 1 - a / 2;
    if k > 0 {
      InvertedBits(a / 2, n - 1, k - 1);
    }
  }

  lemma ClearedFits(v: Word, a: Word, bits8: bool)
    requires v < Size(bits8) && a < Size(bits8)
    ensures BitAnd(v, 0xffff - a) < Size(bits8)
  {
    hide Bitwise;
    AndBelow(v, 0xffff - a, 16);
  }

  lemma {:induction false} AndBelow(v: nat, a: nat, n: nat)
    ensures Bitwise(AndBits, v, a, n) <= v
  {
    if n > 0 {
      AndBelow(v / 2, a / 2, n - 1);
    }
  }

  /** A left and a right rotation, one after the other, wherever the second finds what the first left: operand
      and carry are what they were. */
  lemma RotationsUndo(s: State, op: RmwOp, target: Target, t: State, s': State, op': RmwOp, target': Target, t': State)
    requires Modifies(s, op, target, t) && Modifies(s', op', target', t') && s'.M8() == s.M8()
    requires (op.Rol? && op'.Ror?) || (op.Ror? && op'.Rol?)
    requires OperandIn(s', s', target') == OperandIn(t, s, target) && s'.Carry() == t.Carry()
    ensures OperandIn(t', s', target') == OperandIn(s, s, target) && t'.Carry() == s.Carry()
  {
    hide Modifies, OperandIn, State.M8, Shown;
    Shifts(s, op, target, t);
    Shifts(s', op', target', t');
    hide State.Has;
    OperandFits(s, s, target);
    OperandFits(t', s', target');
  }

  /** And so do INC and DEC. */
  lemma StepsUndo(s: State, op: RmwOp, target: Target, t: State, s': State, op': RmwOp, target': Target, t': State)
    requires Modifies(s, op, target, t) && Modifies(s', op', target', t') && s'.M8() == s.M8()
    requires (op.Inc? && op'.Dec?) || (op.Dec? && op'.Inc?)
    requires OperandIn(s', s', target') == OperandIn(t, s, target)
    ensures OperandIn(t', s', target') == OperandIn(s, s, target)
  {
    hide Modifies, OperandIn, State.M8, Shown;
    StepsByOne(s, op, target, t);
    StepsByOne(s', op', target', t');
    OperandFits(s, s, target);
    StepBack(OperandIn(s, s, target), s.M8());
  }

  lemma OperandFits(t: State, s: State, target: Target)
    ensures OperandIn(t, s, target) < Size(s.M8())
  {
    hide ReadAt, EffectiveAddress;
  }

  lemma StepBack(v: Word, bits8: bool)
    requires v < Size(bits8)
    ensures Cut(Cut(v + 1, bits8) - 1, bits8) == v && Cut(Cut(v - 1, bits8) + 1, bits8) == v
  {
    assert Cut(v + 1, bits8) == if v + 1 == Size(bits8) then 0 else v + 1;
    assert Cut(v - 1, bits8) == if v == 0 then Size(bits8) - 1 else v - 1;
  }
}
