/** What every run of the 65816 emulator keeps, and what the instructions gain from it. */
module Modes {
  import opened Primitives
  import opened Machine
  import opened Instructions
  import opened Opcodes

  /** Short index registers fit a byte, the emulation-mode stack stays in page 1, the N and Z
      bits live outside reg_p, and the program counter stays within its bank. */
  predicate Sane(s: State) {
    && (s.X8() ==> s.x < 0x100 && s.y < 0x100)
    && (s.emul ==> 0x100 <= s.sp < 0x200)
    && s.p & (P_SIGN | P_ZERO) == 0
    && s.pc < 0x10000
  }

  lemma SumSane(s: State, sum: Sum, bits8: bool)
    requires Sane(s)
    ensures Sane(SetSum(s, sum, bits8))
  {
  }

  lemma LogicalSane(s: State, v: Word, bits8: bool)
    requires Sane(s)
    ensures Sane(Logical(s, v, bits8))
  {
  }

  lemma CompareSane(s: State, r: Word, v: Word, bits8: bool)
    requires Sane(s)
    ensures Sane(Compare(s, r, v, bits8))
  {
  }

  lemma TestSane(s: State, v: Word, top: nat, bits8: bool)
    requires Sane(s) && top > 1
    ensures Sane(TestTop(s, v, top)) && Sane(TestZero(s, v, bits8))
  {
  }

  lemma AccumulateSane(s: State, op: AluOp, v: Word, bits8: bool)
    requires Sane(s) && (bits8 ==> v < 0x100)
    ensures Sane(Accumulate(s, op, v, bits8))
  {
    match op
    case Ora => LogicalSane(s, BitOr(s.Acc(bits8), v), bits8);
    case And => LogicalSane(s, BitAnd(s.Acc(bits8), v), bits8);
    case Eor => LogicalSane(s, BitXor(s.Acc(bits8), v), bits8);
    case Lda => LogicalSane(s, v, bits8);
    case Adc => SumSane(s, AdcSum(s, v, bits8), bits8);
    case Sbc => SumSane(s, SbcSum(s, v, bits8), bits8);
    case Cmp => CompareSane(s, s.Acc(bits8), v, bits8);
    case Bit =>
      var top := if bits8 then 0x80 else 0x8000;
      TestSane(s, v, top, bits8);
      TestSane(TestTop(s, v, top), v, top, bits8);
    case BitImm => TestSane(s, v, 2, bits8);
  }

  lemma ModifySane(s: State, op: RmwOp, v: Word, result: int, bits8: bool)
    requires Sane(s)
    ensures Sane(ModifyFlags(s, op, v, result, bits8))
  {
  }

  lemma CopySane(s: State, t: Transfer)
    requires Sane(s)
    ensures Sane(CopyRegister(s, t))
  {
    hide BitOr;
    match t
    case Tax => case Tay => case Tsx => case Txa => case Tya => case Txs =>
    case Txy => case Tyx => case Tcd => case Tdc => case Tcs => case Tsc => case Xba =>
  }

  lemma LoadIndexSane(s: State, r: Index, v: Word)
    requires Sane(s)
    ensures Sane(LoadIndex(s, r, v))
  {
    hide BitOr, Lo, Hi;
  }

  lemma MoveSane(s: State, up: bool)
    requires Sane(s)
    ensures Sane(MoveStep(s, up))
  {
  }

  lemma PushSane(s: State, v: int)
    requires Sane(s)
    ensures Sane(s.Push(v)) && Sane(s.PushWord(v))
  {
  }

  /** The unwrapped pushes are always followed by a wrapped one. */
  lemma RawPushSane(s: State, v: int, w: int)
    requires Sane(s)
    ensures Sane(s.PushRaw(v).Push(w))
  {
  }

  lemma PullSane(s: State)
    requires Sane(s)
    ensures Sane(s.Pulled()) && Sane(s.PulledWord())
  {
  }

  lemma StatusSane(s: State, v: Byte)
    requires s.emul ==> 0x100 <= s.sp < 0x200
    requires s.pc < 0x10000
    ensures Sane(s.SetStatus(v).Narrow())
  {
  }

  lemma ChangeStatusSane(s: State, mask: bv8, on: bool)
    requires Sane(s)
    ensures Sane(ChangeStatus(s, mask, on))
  {
  }

  lemma ExchangeSane(s: State)
    requires Sane(s)
    ensures Sane(ExchangeEmulation(s))
  {
  }

  lemma BreakSane(s: State)
    requires Sane(s)
    ensures Sane(Break(s))
  {
  }

  lemma SubroutineSane(s: State)
    requires Sane(s)
    ensures Sane(JumpSubroutine(s)) && Sane(JumpSubroutineIndexed(s)) && Sane(JumpSubroutineLong(s))
    ensures Sane(Return(s)) && Sane(ReturnLong(s))
  {
  }

  lemma InterruptReturnSane(s: State)
    requires Sane(s)
    ensures Sane(ReturnFromInterrupt(s))
  {
    StatusSane(s.Pulled(), s.Top());
  }

  lemma WriteSane(s: State, m: Mode, ea: nat, v: int, bits8: bool)
    requires Sane(s)
    ensures Sane(WriteAt(s, m, ea, v, bits8))
  {
  }

  lemma SkipSane(s: State, n: nat)
    requires Sane(s)
    ensures Sane(s.Skip(n))
  {
  }

  lemma SetAccSane(s: State, v: int, bits8: bool)
    requires Sane(s)
    ensures Sane(s.SetAcc(v, bits8))
  {
  }

  lemma RmwAccSane(s: State, op: RmwOp, v: Word, result: int)
    requires Sane(s) && v == s.Acc(s.M8()) && result == Modified(s, op, v, s.M8())
    ensures Sane(ReadModifyWrite(s, op, Acc))
  {
    var t := ModifyFlags(s, op, v, result, s.M8());
    ModifySane(s, op, v, result, s.M8());
    SetAccSane(t, result, s.M8());
    SkipSane(t.SetAcc(result, s.M8()), 1);
  }

  lemma RmwCellSane(s: State, op: RmwOp, m: Mode, ea: nat, v: Word, result: int)
    requires Sane(s) && ea == EffectiveAddress(s, m) && v == ReadAt(s, m, ea, s.M8()) &&
             result == Modified(s, op, v, s.M8())
    ensures Sane(ReadModifyWrite(s, op, Cell(m)))
  {
    var t := ModifyFlags(s, op, v, result, s.M8());
    ModifySane(s, op, v, result, s.M8());
    WriteSane(t, m, ea, result, s.M8());
    SkipSane(WriteAt(t, m, ea, result, s.M8()), Length(m));
  }

  lemma RmwSane(s: State, op: RmwOp, target: Target)
    requires Sane(s)
    ensures Sane(ReadModifyWrite(s, op, target))
  {
    match target
    case Acc =>
      var v := s.Acc(s.M8());
      RmwAccSane(s, op, v, Modified(s, op, v, s.M8()));
    case Cell(m) =>
      var ea := EffectiveAddress(s, m);
      var v := ReadAt(s, m, ea, s.M8());
      RmwCellSane(s, op, m, ea, v, Modified(s, op, v, s.M8()));
  }

  lemma JumpSane(s: State, op: FlowOp)
    requires Sane(s) && (op.Branch? || op.Brl? || op.Jmp? || op.JmpInd? || op.JmpIndX? || op.JmpIndLong? || op.JmpLong?)
    ensures Sane(ExecuteFlow(s, op))
  {
  }

  lemma FlowSane(s: State, op: FlowOp)
    requires Sane(s)
    ensures Sane(ExecuteFlow(s, op))
  {
    match op
    case Rti => InterruptReturnSane(s);
    case Brk => BreakSane(s);
    case Jsr => SubroutineSane(s);
    case JsrIndX => SubroutineSane(s);
    case JsrLong => SubroutineSane(s);
    case Rts => SubroutineSane(s);
    case Rtl => SubroutineSane(s);
    case _ => JumpSane(s, op);
  }

  lemma PushOpSane(s: State, op: PushOp)
    requires Sane(s)
    ensures Sane(ExecutePush(s, op))
  {
    hide ExecutePush, Sane;
    if op.Phd? || op.Pea? || op.Pei? || op.Per? {
      RawPushOpSane(s, op);
    } else {
      PlainPushOpSane(s, op);
    }
  }

  lemma PlainPushOpSane(s: State, op: PushOp)
    requires Sane(s) && !(op.Phd? || op.Pea? || op.Pei? || op.Per?)
    ensures Sane(ExecutePush(s, op))
  {
    hide WithBits, EffectiveWord;
    if op.Pha? {
      PushSane(s, s.Acc(s.M8()));
    } else if op.Ph? {
      PushSane(s, GetIndex(s, op.r));
    }
  }

  lemma RawPushOpSane(s: State, op: PushOp)
    requires Sane(s) && (op.Phd? || op.Pea? || op.Pei? || op.Per?)
    ensures Sane(ExecutePush(s, op))
  {
    match op
    case Phd => RawPushSane(s, Hi(s.dpr), Lo(s.dpr));
    case Pea => RawPushSane(s, s.Operand(2), s.Operand(1));
    case Pei => RawPushSane(s, Bank0(s, s.Operand(1) + s.dpr + 1), Bank0(s, s.Operand(1) + s.dpr));
    case Per => RawPushSane(s, Hi(s.Skip(3).pc + OperandWord(s)), Lo(s.Skip(3).pc + OperandWord(s)));
  }

  lemma PullOpSane(s: State, op: PullOp)
    requires Sane(s)
    ensures Sane(ExecutePull(s, op))
  {
    hide WithBits;
    if op.Plp? {
      StatusSane(s.Pulled(), s.Top());
    } else {
      PullSane(s);
    }
  }

  lemma SystemSane(s: State, op: SystemOp)
    requires Sane(s)
    ensures Sane(ExecuteSystem(s, op))
  {
    hide ChangeStatus, ExchangeEmulation, WithBits;
    SkipSane(s, 1);
    SkipSane(s, 2);
    match op
    case Rep => ChangeStatusSane(s.Skip(2), s.Operand(1) as bv8, false);
    case Sep => ChangeStatusSane(s.Skip(2), s.Operand(1) as bv8, true);
    case Xce => ExchangeSane(s.Skip(1));
    case ChangeFlag(flag, on) => FlagSane(s.Skip(1), flag, on);
    case _ =>
  }

  lemma FlagSane(s: State, flag: FlagBit, on: bool)
    requires Sane(s)
    ensures Sane(s.Flag(Mask(flag), on))
  {
  }

  lemma OperationSane(s: State, i: Instr)
    requires Sane(s) && (i.Alu? || i.Rmw? || i.Ld? || i.Cp?)
    ensures Sane(Execute(s, i))
  {
    match i
    case Alu(op, from) => AccumulateSane(s, op, ReadSource(s, from, s.M8()), s.M8());
    case Rmw(op, target) => RmwSane(s, op, target);
    case Ld(r, from) => LoadIndexSane(s, r, ReadSource(s, from, s.X8()));
    case Cp(r, from) => CompareSane(s, GetIndex(s, r), ReadSource(s, from, s.X8()), s.X8());
  }

  lemma StoreSane(s: State, what: Stored, m: Mode)
    requires Sane(s)
    ensures Sane(StoreOperand(s, what, m))
  {
    var ea, v, bits8 := EffectiveAddress(s, m), StoredValue(s, what), StoredWidth(s, what);
    WriteSane(s, m, ea, v, bits8);
    SkipSane(WriteAt(s, m, ea, v, bits8), Length(m));
  }

  lemma RegisterSane(s: State, i: Instr)
    requires Sane(s) && (i.StepIndex? || i.Copy?)
    ensures Sane(Execute(s, i))
  {
    SkipSane(s, 1);
    match i
    case StepIndex(r, up) => LoadIndexSane(s.Skip(1), r, (GetIndex(s, r) + if up then 1 else -1) % 0x10000);
    case Copy(t) => CopySane(s.Skip(1), t);
  }

  /** No instruction breaks the invariant. */
  lemma ExecuteSane(s: State, i: Instr)
    requires Sane(s)
    ensures Sane(Execute(s, i))
  {
    match i
    case Move(up) => MoveSane(s, up);
    case Write(what, m) => StoreSane(s, what, m);
    case Flow(op) => FlowSane(s, op);
    case Push(op) => PushOpSane(s, op);
    case Pull(op) => PullOpSane(s, op);
    case System(op) => SystemSane(s, op);
    case _ =>
      if i.Alu? || i.Rmw? || i.Ld? || i.Cp? {
        OperationSane(s, i);
      } else {
        RegisterSane(s, i);
      }
  }

  lemma {:induction false} IterateSane(step: State -> State, s: State, n: nat)
    requires Sane(s) && forall t :: Sane(t) ==> Sane(step(t))
    ensures Sane(Iterate(step, s, n))
    decreases n
  {
    if n > 0 {
      IterateSane(step, step(s), n - 1);
    }
  }

  /** Whatever the program, every state reached from a sane one is sane. */
  lemma RunSane(s: State, n: nat)
    requires Sane(s)
    ensures Sane(Run(s, n))
  {
    forall t | Sane(t)
      ensures Sane(Step(t))
    {
      ExecuteSane(t, Decode(t.Fetch(t.pc)));
    }
    IterateSane(Step, s, n);
  }

  lemma PowerOnRunSane(ram: Ram, n: nat)
    ensures Sane(Run(PowerOn(ram), n))
  {
    RunSane(PowerOn(ram), n);
  }

  // ----- what the invariant buys

  /** The carry of a comparison is unsigned order exactly when the difference fits the compared
      width, so a register left wider than its mode says would compare wrongly. */
  lemma CompareCarry(s: State, r: Word, v: Word, bits8: bool)
    ensures Compare(s, r, v, bits8).Has(P_CARRY) <==> 0 <= r - v < if bits8 then 0x100 else 0x10000
  {
    hide BitOr, Lo, Hi;
  }

  /** In a sane state CPX and CPY set the carry exactly when the register is at least the operand. */
  lemma IndexCompareIsUnsigned(s: State, r: Index, from: Source)
    requires Sane(s)
    ensures var v := ReadSource(s, from, s.X8());
            Compare(s, GetIndex(s, r), v, s.X8()).Has(P_CARRY) <==> GetIndex(s, r) >= v
  {
    CompareCarry(s, GetIndex(s, r), ReadSource(s, from, s.X8()), s.X8());
  }

  /** TXS in emulation mode keeps X whole in the low byte of the stack pointer. */
  lemma TxsKeepsX(s: State)
    requires Sane(s) && s.emul
    ensures CopyRegister(s, Txs).sp == 0x100 + s.x
  {
  }

  /** The programmatic reset: it enters emulation mode but leaves X, Y and the stack pointer alone. */
  function Reset(s: State): State {
    s.(pc := 0, pbr := 0, dpr := 0, dbr := 0, emul := true)
  }

  /** So, unlike power-on, a reset is safe only from a state that already fits emulation mode. */
  lemma ResetSane(s: State)
    requires Sane(s)
    ensures Sane(Reset(s)) <==> s.x < 0x100 && s.y < 0x100 && 0x100 <= s.sp < 0x200
  {
  }

  /** CLC, XCE and TXS at the bottom of memory. */
  function LeavePage1(): Ram {
    seq(RAMSIZE, i => if i == 0 then 0x18 else if i == 1 then 0xfb else if i == 2 then 0x9a else 0)
  }

  lemma ThreeDecode()
    ensures Decode(0x18) == System(ChangeFlag(C, false)) && Decode(0xfb) == System(Xce) && Decode(0x9a) == Copy(Txs)
  {
  }

  lemma SystemStep(s: State, op: SystemOp)
    requires Decode(s.Fetch(s.pc)) == System(op)
    ensures Step(s) == ExecuteSystem(s, op)
  {
    hide Decode, ExecuteSystem;
  }

  lemma ClearsCarry(s: State, t: State)
    requires s.pc < 0xffff && t == ExecuteSystem(s, ChangeFlag(C, false))
    ensures t == s.(p := t.p, pc := s.pc + 1) && !t.Has(P_CARRY)
  {
  }

  lemma GoesNative(s: State, t: State)
    requires s.pc < 0xffff && s.emul && !s.Has(P_CARRY) && t == ExecuteSystem(s, Xce)
    ensures !t.emul && t.pc == s.pc + 1 && t.pbr == s.pbr && t.ram == s.ram && t.x == s.x
  {
    hide WithBits;
  }

  lemma TransfersStack(s: State, t: State)
    requires Decode(s.Fetch(s.pc)) == Copy(Txs) && !s.emul && t == Step(s)
    ensures t.sp == s.x
  {
    hide Decode;
  }

  lemma ThreeSteps(s: State, t: State, u: State, v: State)
    requires t == Step(s) && u == Step(t) && v == Step(u)
    ensures Run(s, 3) == v
  {
    hide Step;
    RunOn(s, t, 3);
    RunOn(t, u, 2);
    RunOn(u, v, 1);
  }

  /** Three instructions after power-on a reset already breaks the invariant: native mode lets the stack
      pointer leave page 1. */
  lemma ResetUnsafe()
    ensures Sane(Run(PowerOn(LeavePage1()), 3)) && !Sane(Reset(Run(PowerOn(LeavePage1()), 3)))
  {
    hide Run, Step, Decode, ExecuteSystem, State.Has;
    var s := PowerOn(LeavePage1());
    var t, u, v := Step(s), Step(Step(s)), Step(Step(Step(s)));
    PowerOnRunSane(LeavePage1(), 3);
    ThreeDecode();
    SystemStep(s, ChangeFlag(C, false));
    ClearsCarry(s, t);
    SystemStep(t, Xce);
    GoesNative(t, u);
    TransfersStack(u, v);
    ThreeSteps(s, t, u, v);
  }
}
