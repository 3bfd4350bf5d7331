/** Accesses as values: how reads and writes commute with stepping over an instruction,
    and what a store leaves for a load (emulator/65816core.c). */
module Access {
  import opened Primitives
  import opened Machine
  import opened Instructions

  /** What one access must do: write the value, or read it and change nothing. */
  ghost predicate Accessed(s: State, t: State, m: Mode, ea: nat, value: int, bits8: bool, write: bool, v: int) {
    if write then t == WriteAt(s, m, ea, value, bits8) else t == s && v == ReadAt(s, m, ea, bits8)
  }

  lemma SkipTwice(s: State, a: nat, b: nat)
    ensures s.Skip(a).Skip(b) == s.Skip(a + b)
  {
    assert (s.pc + a) % 0x10000 + b == s.pc + a + b - 0x10000 * ((s.pc + a) / 0x10000);
  }

  lemma BranchWraps(pc: nat, d: int)
    ensures ((pc + 2) % 0x10000 + d) % 0x10000 == (pc + 2 + d) % 0x10000
  {
    assert (pc + 2) % 0x10000 + d == pc + 2 + d - 0x10000 * ((pc + 2) / 0x10000);
  }

  /** One unwrapped step up the stack. */
  lemma RawUp(sp: Word, k: nat)
    ensures ((sp + k) % 0x10000 + 1) % 0x10000 == (sp + k + 1) % 0x10000
  {
    assert (sp + k) % 0x10000 + 1 == sp + k + 1 - 0x10000 * ((sp + k) / 0x10000);
  }

  /** Folding the pointer back into page 1 looks only at its low byte. */
  lemma RewrapCut(s: State, t: State, k: nat)
    requires t == s.(sp := (s.sp + k) % 0x10000)
    ensures Rewrapped(t, t.sp) == Rewrapped(s, s.sp + k)
  {
    assert (s.sp + k) % 0x10000 == s.sp + k - 0x10000 * ((s.sp + k) / 0x10000);
    assert (s.sp + k) % 0x10000 % 0x100 == (s.sp + k) % 0x100;
  }

  /** A push keeps the low byte of what it is given. */
  lemma PushCut(s: State, v: int)
    ensures s.Push(v) == s.Push(Lo(v)) && s.Push(v / 0x100) == s.Push(Hi(v)) && s.PushRaw(v / 0x100) == s.PushRaw(Hi(v))
  {
  }

  /** The program bank plays no part in a push. */
  lemma PushWideBank(s: State, v: int, bank: Byte)
    ensures PushWide(s.(pbr := bank), v) == PushWide(s, v).(pbr := bank)
    ensures PushWide(s, v).pc == s.pc && PushWide(s, v).pbr == s.pbr
  {
  }

  /** Bank-0 words wrap at the end of the bank however their address was formed. */
  lemma Bank0Next(ea: nat)
    ensures (ea + 1) % 0x10000 == (ea % 0x10000 + 1) % 0x10000
  {
  }

  /** The RAM cells of the two bytes of a word are always different. */
  lemma CellsDiffer(m: Mode, ea: nat)
    requires ea < 0x1000000 && (InBank0(m) ==> ea < 0x10000)
    ensures ea % RAMSIZE != NextAddress(m, ea) % RAMSIZE
  {
  }

  /** Reading back at the same place gives the value written, cut to the width, wherever the word wraps. */
  lemma StoreThenLoad(s: State, m: Mode, ea: nat, value: Word, bits8: bool)
    requires ea < 0x1000000 && (InBank0(m) ==> ea < 0x10000)
    ensures ReadAt(WriteAt(s, m, ea, value, bits8), m, ea, bits8) == if bits8 then Lo(value) else value
  {
    CellsDiffer(m, ea);
  }

  /** The same with the high byte written first, as the read-modify-write stores do. */
  lemma HighFirst(s: State, m: Mode, ea: nat, value: int)
    requires ea < 0x1000000 && (InBank0(m) ==> ea < 0x10000)
    ensures s.Store(NextAddress(m, ea), value / 0x100).Store(ea, value) == WriteAt(s, m, ea, value, false)
  {
    CellsDiffer(m, ea);
    assert s.Store(NextAddress(m, ea), value / 0x100).Store(ea, value).ram == WriteAt(s, m, ea, value, false).ram;
  }

  /** Cells outside the operand are untouched. */
  lemma WriteElsewhere(s: State, m: Mode, ea: nat, value: int, bits8: bool, a: nat)
    requires a < RAMSIZE && a != ea % RAMSIZE && (bits8 || a != NextAddress(m, ea) % RAMSIZE)
    ensures WriteAt(s, m, ea, value, bits8).ram[a] == s.ram[a]
  {
  }

  /** The way the macros form a direct-page address: the page kept apart only when emulation asks for it. */
  lemma DirectCode(s: State, offset: nat)
    ensures DirectAddress(s, offset) ==
            (if !s.emul || s.dpr % 0x100 != 0 then offset + s.dpr else offset % 0x100 + s.dpr) % 0x10000
    ensures offset < 0x100 ==> DirectAddress(s, offset) == (offset + s.dpr) % 0x10000
    ensures s.emul && s.dpr % 0x100 == 0 ==> offset % 0x100 + s.dpr < 0x10000 && DirectAddress(s, 0x100) == s.dpr
  {
  }

  lemma PointerSkip(s: State, offset: nat, k: nat)
    ensures DirectPointer(s.Skip(k), offset) == DirectPointer(s, offset)
  {
  }

  /** Stepping over the instruction changes neither memory nor the registers addresses come from. */
  lemma WriteSkip(s: State, m: Mode, ea: nat, value: int, bits8: bool, k: nat)
    ensures WriteAt(s.Skip(k), m, ea, value, bits8) == WriteAt(s, m, ea, value, bits8).Skip(k)
  {
  }

  lemma ReadSkip(s: State, m: Mode, ea: nat, bits8: bool, k: nat)
    ensures ReadAt(s.Skip(k), m, ea, bits8) == ReadAt(s, m, ea, bits8)
  {
  }

  /** Operations look at flags and registers, never at the program counter. */
  lemma SetSumSkip(s: State, sum: Sum, bits8: bool, k: nat)
    ensures SetSum(s.Skip(k), sum, bits8) == SetSum(s, sum, bits8).Skip(k)
  {
  }

  lemma LogicalSkip(s: State, v: Word, bits8: bool, k: nat)
    ensures Logical(s.Skip(k), v, bits8) == Logical(s, v, bits8).Skip(k)
  {
    hide BitOr, Lo, Hi;
  }

  lemma CompareSkip(s: State, r: Word, v: Word, bits8: bool, k: nat)
    ensures Compare(s.Skip(k), r, v, bits8) == Compare(s, r, v, bits8).Skip(k)
  {
  }

  lemma TestSkip(s: State, v: Word, top: nat, bits8: bool, k: nat)
    requires top > 1
    ensures TestTop(s.Skip(k), v, top) == TestTop(s, v, top).Skip(k)
    ensures TestZero(s.Skip(k), v, bits8) == TestZero(s, v, bits8).Skip(k)
  {
  }

  lemma AccumulateSkip(s: State, op: AluOp, v: Word, bits8: bool, k: nat)
    requires bits8 ==> v < 0x100
    ensures Accumulate(s.Skip(k), op, v, bits8) == Accumulate(s, op, v, bits8).Skip(k)
  {
    var a := s.Acc(bits8);
    match op
    case Ora => LogicalSkip(s, BitOr(a, v), bits8, k);
    case And => LogicalSkip(s, BitAnd(a, v), bits8, k);
    case Eor => LogicalSkip(s, BitXor(a, v), bits8, k);
    case Lda => LogicalSkip(s, v, bits8, k);
    case Adc => SetSumSkip(s, AdcSum(s, v, bits8), bits8, k);
    case Sbc => SetSumSkip(s, SbcSum(s, v, bits8), bits8, k);
    case Cmp => CompareSkip(s, a, v, bits8, k);
    case Bit =>
      var top := if bits8 then 0x80 else 0x8000;
      TestSkip(s, v, top, bits8, k);
      TestSkip(TestTop(s, v, top), v, top, bits8, k);
    case BitImm => TestSkip(s, v, 2, bits8, k);
  }

  lemma AccumulatorInstrIs(s: State, op: AluOp, from: Source, value: Word, bits8: bool, k: nat, t: State)
    requires bits8 == s.M8() && value == ReadSource(s, from, bits8) && k == SourceLength(from, bits8)
    requires t == Accumulate(s.Skip(k), op, value, bits8)
    ensures t == AccumulatorInstr(s, op, from)
  {
    AccumulateSkip(s, op, value, bits8, k);
  }

  lemma IndexSkip(s: State, r: Index, v: Word, k: nat)
    ensures LoadIndex(s.Skip(k), r, v) == LoadIndex(s, r, v).Skip(k)
  {
    assert s.Skip(k).X8() == s.X8();
    hide State.X8;
  }

  lemma ModifiedSkip(s: State, op: RmwOp, v: Word, bits8: bool, k: nat)
    ensures Modified(s.Skip(k), op, v, bits8) == Modified(s, op, v, bits8)
  {
  }

  lemma ModifyFlagsSkip(s: State, op: RmwOp, v: Word, result: int, bits8: bool, k: nat)
    ensures ModifyFlags(s.Skip(k), op, v, result, bits8) == ModifyFlags(s, op, v, result, bits8).Skip(k)
  {
    hide Lo, BitOr;
    if op.Tsb? || op.Trb? {
      TestSkip(s, v, 2, bits8, k);
    }
  }

  /** A read-modify-write with the program counter moved on first, as the code has it. */
  lemma ModifyAccumulatorIs(s: State, op: RmwOp, v: Word, result: int, bits8: bool)
    requires bits8 == s.M8() && v == s.Acc(bits8) && result == Modified(s, op, v, bits8)
    ensures ReadModifyWrite(s, op, Acc) == ModifyFlags(s.Skip(1), op, v, result, bits8).SetAcc(result, bits8)
  {
    ModifyFlagsSkip(s, op, v, result, bits8, 1);
    assert ReadModifyWrite(s, op, Acc) == ModifyFlags(s, op, v, result, bits8).SetAcc(result, bits8).Skip(1);
    SetAccSkip(ModifyFlags(s, op, v, result, bits8), result, bits8, 1);
  }

  lemma SetAccSkip(s: State, v: int, bits8: bool, k: nat)
    ensures s.Skip(k).SetAcc(v, bits8) == s.SetAcc(v, bits8).Skip(k)
  {
  }

  lemma ModifyCellIs(s: State, op: RmwOp, m: Mode, ea: nat, v: Word, result: int, bits8: bool)
    requires bits8 == s.M8() && ea == EffectiveAddress(s, m) && v == ReadAt(s, m, ea, bits8)
    requires result == Modified(s, op, v, bits8)
    ensures ReadModifyWrite(s, op, Target.Cell(m)) ==
            WriteAt(ModifyFlags(s.Skip(Length(m)), op, v, result, bits8), m, ea, result, bits8)
  {
    var t := ModifyFlags(s, op, v, result, bits8);
    assert ReadModifyWrite(s, op, Target.Cell(m)) == WriteAt(t, m, ea, result, bits8).Skip(Length(m));
    ModifyFlagsSkip(s, op, v, result, bits8, Length(m));
    WriteSkip(t, m, ea, result, bits8, Length(m));
  }

  /** Index registers one step on, at their width. */
  function Stepped(s: State, up: bool): State {
    s.(x := (s.x + if up then 1 else -1) % 0x10000, y := (s.y + if up then 1 else -1) % 0x10000).Narrow()
  }

  /** The block-move step in the order the code makes it. */
  lemma MoveStepIs(s: State, up: bool, t: State, dest: Byte, source: Byte)
    requires t == if s.c == 0 then s.Skip(3) else s
    requires dest == if s.c == 0 then s.Operand(1) else s.Fetch(s.pc + 1)
    requires source == if s.c == 0 then s.Operand(2) else s.Fetch(s.pc + 2)
    ensures MoveStep(s, up) ==
            Stepped(t.(dbr := dest).Store(s.y + 0x10000 * dest, s.Load(s.x + 0x10000 * source)),
              up).(c := (s.c - 1) % 0x10000)
  {
    hide State.Fetch, State.Operand, State.Load, Lo;
  }

  /** Where a read-modify-write leaves its address: on the byte it read last. */
  function LastByte(m: Mode, ea: nat, bits8: bool): nat {
    if bits8 then ea else NextAddress(m, ea)
  }

  lemma StepBack(m: Mode, ea: nat)
    requires ea < 0x1000000 && (InBank0(m) ==> ea < 0x10000)
    ensures (NextAddress(m, ea) - 1) % (if InBank0(m) then 0x10000 else 0x1000000) == ea
  {
  }

  /** Writing a byte back unchanged changes nothing. */
  lemma StoreBack(s: State, a: nat)
    ensures s.Store(a, s.Load(a)) == s
  {
    assert s.ram[a % RAMSIZE := s.ram[a % RAMSIZE]] == s.ram;
  }

  // ----- a store and a later load

  /** Memory the effective address depends on, beside the operand bytes. */
  function PointerCells(s: State, m: Mode): set<nat> {
    var p1 := s.Operand(1);
    match m
    case Ind => {DirectAddress(s, p1), DirectAddress(s, p1 + 1)}
    case IndX => {DirectAddress(s, p1 + s.x), DirectAddress(s, p1 + s.x + 1)}
    case IndY => {DirectAddress(s, p1), DirectAddress(s, p1 + 1)}
    case IndLong => {(p1 + s.dpr) % 0x10000, (p1 + s.dpr + 1) % 0x10000, (p1 + s.dpr + 2) % 0x10000}
    case IndLongY => {(p1 + s.dpr) % 0x10000, (p1 + s.dpr + 1) % 0x10000, (p1 + s.dpr + 2) % 0x10000}
    case StackRelY => {(p1 + s.sp) % 0x10000, (p1 + s.sp + 1) % 0x10000}
    case _ => {}
  }

  /** Another instruction with the same operand bytes and the same address registers. */
  predicate SameOperand(s: State, u: State) {
    && u.Operand(1) == s.Operand(1) && u.Operand(2) == s.Operand(2) && u.Operand(3) == s.Operand(3)
    && u.x == s.x && u.y == s.y && u.dbr == s.dbr && u.dpr == s.dpr && u.sp == s.sp && u.emul == s.emul
  }

  lemma SameThroughPointer(s: State, u: State, m: Mode)
    requires SameOperand(s, u) && forall a :: a in PointerCells(s, m) ==> u.Load(a) == s.Load(a)
    requires m.Ind? || m.IndX? || m.IndY?
    ensures EffectiveAddress(u, m) == EffectiveAddress(s, m)
  {
    hide State.Operand;
    DirectSame(s, u, if m.IndX? then s.Operand(1) + s.x else s.Operand(1));
  }

  lemma SameThroughLong(s: State, u: State, m: Mode)
    requires SameOperand(s, u) && forall a :: a in PointerCells(s, m) ==> u.Load(a) == s.Load(a)
    requires m.IndLong? || m.IndLongY?
    ensures EffectiveAddress(u, m) == EffectiveAddress(s, m)
  {
    LongSame(s, u, s.Operand(1) + s.dpr);
    ThroughLong(s, m);
    ThroughLong(u, m);
  }

  lemma ThroughLong(s: State, m: Mode)
    requires m.IndLong? || m.IndLongY?
    ensures var ptr := LongPointer(s, s.Operand(1) + s.dpr);
            EffectiveAddress(s, m) == if m.IndLong? then ptr else (ptr + s.y) % 0x1000000
  {
  }

  lemma SameThroughStack(s: State, u: State, m: Mode)
    requires SameOperand(s, u) && forall a :: a in PointerCells(s, m) ==> u.Load(a) == s.Load(a)
    requires m.StackRelY?
    ensures EffectiveAddress(u, m) == EffectiveAddress(s, m)
  {
    assert (s.Operand(1) + s.sp) % 0x10000 in PointerCells(s, m) &&
      (s.Operand(1) + s.sp + 1) % 0x10000 in PointerCells(s, m);
  }

  lemma SameDirectly(s: State, u: State, m: Mode)
    requires SameOperand(s, u) && PointerCells(s, m) == {}
    requires !(m.Ind? || m.IndX? || m.IndY? || m.IndLong? || m.IndLongY? || m.StackRelY?)
    ensures EffectiveAddress(u, m) == EffectiveAddress(s, m)
  {
  }

  lemma SameAddress(s: State, u: State, m: Mode)
    requires SameOperand(s, u) && forall a :: a in PointerCells(s, m) ==> u.Load(a) == s.Load(a)
    ensures EffectiveAddress(u, m) == EffectiveAddress(s, m)
  {
    if m.Ind? || m.IndX? || m.IndY? {
      SameThroughPointer(s, u, m);
    } else if m.IndLong? || m.IndLongY? {
      SameThroughLong(s, u, m);
    } else if m.StackRelY? {
      SameThroughStack(s, u, m);
    } else {
      SameDirectly(s, u, m);
    }
  }

  lemma DirectSame(s: State, u: State, offset: nat)
    requires u.dpr == s.dpr && u.emul == s.emul
    requires forall a :: a in {DirectAddress(s, offset), DirectAddress(s, offset + 1)} ==> u.Load(a) == s.Load(a)
    ensures DirectPointer(u, offset) == DirectPointer(s, offset)
  {
    assert DirectAddress(s, offset) in {DirectAddress(s, offset), DirectAddress(s, offset + 1)};
    assert DirectAddress(s, offset + 1) in {DirectAddress(s, offset), DirectAddress(s, offset + 1)};
  }

  lemma LongSame(s: State, u: State, addr: nat)
    requires forall a :: a in {addr % 0x10000, (addr + 1) % 0x10000, (addr + 2) % 0x10000} ==> u.Load(a) == s.Load(a)
    ensures LongPointer(u, addr) == LongPointer(s, addr)
  {
    var cells := {addr % 0x10000, (addr + 1) % 0x10000, (addr + 2) % 0x10000};
    assert addr % 0x10000 in cells && (addr + 1) % 0x10000 in cells && (addr + 2) % 0x10000 in cells;
  }

  lemma PointersInBank0(s: State, m: Mode, a: nat)
    requires a in PointerCells(s, m)
    ensures a < 0x10000
  {
  }

  lemma LoadUnwritten(s: State, u: State, m: Mode, ea: nat, value: int, bits8: bool, a: nat)
    requires u.ram == WriteAt(s, m, ea, value, bits8).ram && a < 0x10000
    requires a != ea % RAMSIZE && (bits8 || a != NextAddress(m, ea) % RAMSIZE)
    ensures u.Load(a) == s.Load(a)
  {
    WriteElsewhere(s, m, ea, value, bits8, a);
  }

  /** A store that misses the pointer leaves the address as it was. */
  lemma AddressKept(s: State, u: State, m: Mode, ea: nat, value: Word, bits8: bool)
    requires SameOperand(s, u) && u.ram == WriteAt(s, m, ea, value, bits8).ram
    requires forall a :: a in PointerCells(s, m) ==> a != ea % RAMSIZE && (bits8 || a != NextAddress(m, ea) % RAMSIZE)
    ensures EffectiveAddress(u, m) == EffectiveAddress(s, m)
  {
    forall a | a in PointerCells(s, m)
      ensures u.Load(a) == s.Load(a)
    {
      PointersInBank0(s, m, a);
      LoadUnwritten(s, u, m, ea, value, bits8, a);
    }
    SameAddress(s, u, m);
  }

  /** Storing and then loading with the same operand gives the value back, in every mode and at either
      width, as long as the store did not hit the pointer it went through. */
  lemma LoadsWhatWasStored(s: State, u: State, m: Mode, ea: nat, value: Word, bits8: bool)
    requires ea == EffectiveAddress(s, m)
    requires SameOperand(s, u) && u.ram == WriteAt(s, m, ea, value, bits8).ram
    requires forall a :: a in PointerCells(s, m) ==> a != ea % RAMSIZE && (bits8 || a != NextAddress(m, ea) % RAMSIZE)
    ensures ReadSource(u, Mem(m), bits8) == if bits8 then Lo(value) else value
  {
    AddressKept(s, u, m, ea, value, bits8);
    StoreThenLoad(s, m, ea, value, bits8);
    assert ReadAt(u, m, ea, bits8) == ReadAt(WriteAt(s, m, ea, value, bits8), m, ea, bits8);
  }

  /** The memory a read-modify-write leaves. */
  lemma ModifiedMemory(s: State, op: RmwOp, m: Mode, ea: nat, v: int)
    requires ea == EffectiveAddress(s, m) && v == Modified(s, op, ReadAt(s, m, ea, s.M8()), s.M8())
    ensures ReadModifyWrite(s, op, Target.Cell(m)).ram == WriteAt(s, m, ea, v, s.M8()).ram
  {
    var t := ModifyFlags(s, op, ReadAt(s, m, ea, s.M8()), v, s.M8());
    assert t.ram == s.ram;
  }

  /** A read-modify-write replaces exactly the operand it read, in place, wrap included. */
  lemma ReplacesOperand(s: State, op: RmwOp, m: Mode, ea: nat, after: State, a: nat)
    requires ea == EffectiveAddress(s, m) && after == ReadModifyWrite(s, op, Target.Cell(m)) && a < RAMSIZE
    ensures var v := Modified(s, op, ReadAt(s, m, ea, s.M8()), s.M8());
            ReadAt(after, m, ea, s.M8()) == if s.M8() then Lo(v) else v % 0x10000
    ensures a != ea % RAMSIZE && (s.M8() || a != NextAddress(m, ea) % RAMSIZE) ==> after.ram[a] == s.ram[a]
  {
    var v := Modified(s, op, ReadAt(s, m, ea, s.M8()), s.M8());
    ModifiedMemory(s, op, m, ea, v);
    StoreCut(s, m, ea, v, s.M8());
    ReadSame(after, WriteAt(s, m, ea, v, s.M8()), m, ea, s.M8());
    if a != ea % RAMSIZE && (s.M8() || a != NextAddress(m, ea) % RAMSIZE) {
      WriteElsewhere(s, m, ea, v, s.M8(), a);
    }
  }

  lemma ReadSame(s: State, t: State, m: Mode, ea: nat, bits8: bool)
    requires s.ram == t.ram
    ensures ReadAt(s, m, ea, bits8) == ReadAt(t, m, ea, bits8)
  {
  }

  /** A value wider than its operand is cut down by the store. */
  lemma StoreCut(s: State, m: Mode, ea: nat, v: int, bits8: bool)
    requires ea < 0x1000000 && (InBank0(m) ==> ea < 0x10000)
    ensures ReadAt(WriteAt(s, m, ea, v, bits8), m, ea, bits8) == if bits8 then Lo(v) else v % 0x10000
  {
    CellsDiffer(m, ea);
    WordSplit(v);
    hide InBank0, NextAddress;
  }

  lemma WordSplit(v: int)
    ensures v % 0x10000 == Lo(v) + 0x100 * Lo(v / 0x100)
  {
  }
}
