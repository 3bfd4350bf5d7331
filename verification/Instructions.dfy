/** What every 65816 instruction does to the machine state: one meaning per addressing mode
    and one per operation (emulator/65816core.c). */
module Instructions {
  import opened Primitives
  import opened Machine

  datatype Mode = Dp | DpX | DpY | Ind | IndX | IndY | IndLong | IndLongY
                | Abs | AbsX | AbsY | AbsLong | AbsLongX | StackRel | StackRelY

  /** What an instruction reads, and what a read-modify-write works on. */
  datatype Source = Imm | Mem(mode: Mode)
  datatype Target = Acc | Cell(mode: Mode)

  datatype AluOp = Ora | And | Eor | Adc | Sbc | Lda | Cmp | Bit | BitImm
  datatype RmwOp = Asl | Rol | Lsr | Ror | Inc | Dec | Tsb | Trb
  datatype Index = X | Y
  datatype Condition = Bpl | Bmi | Bvc | Bvs | Bcc | Bcs | Bne | Beq | Always
  datatype FlagBit = C | I | D | V
  datatype Transfer = Tax | Tay | Txa | Tya | Txs | Tsx | Txy | Tyx | Tcd | Tdc | Tcs | Tsc | Xba

  datatype Stored = FromC | FromX | FromY | FromZero

  datatype FlowOp =
    | Branch(cond: Condition) | Brl
    | Jmp | JmpInd | JmpIndX | JmpIndLong | JmpLong
    | Jsr | JsrIndX | JsrLong | Rts | Rtl | Rti | Brk
  datatype PushOp = Pha | Phb | Phd | Phk | Php | Ph(r: Index) | Pea | Pei | Per
  datatype PullOp = Pla | Plb | Pld | Plp | Pl(r: Index)
  datatype SystemOp = ChangeFlag(flag: FlagBit, on: bool) | Rep | Sep | Xce | Nop | Wdm | Halt

  datatype Instr =
    | Alu(op: AluOp, from: Source)
    | Rmw(rmw: RmwOp, target: Target)
    | Write(what: Stored, mode: Mode)
    | Ld(r: Index, from: Source) | Cp(r: Index, from: Source)
    | StepIndex(r: Index, up: bool) | Copy(t: Transfer) | Move(up: bool)
    | Flow(flow: FlowOp) | Push(push: PushOp) | Pull(pull: PullOp) | System(system: SystemOp)

  // ----- addressing

  /** A direct-page location. In emulation mode with an aligned page it stays within the page. */
  function DirectAddress(s: State, offset: nat): Word {
    if s.emul && s.dpr % 0x100 == 0 then offset % 0x100 + s.dpr else (offset + s.dpr) % 0x10000
  }

  /** A two-byte pointer in the direct page. */
  function DirectPointer(s: State, offset: nat): Word {
    s.Load(DirectAddress(s, offset)) + 0x100 * s.Load(DirectAddress(s, offset + 1))
  }

  /** A bank-0 byte at a 16-bit wrapping address, and the long pointer built of three. */
  function Bank0(s: State, addr: nat): Byte {
    s.Load(addr % 0x10000)
  }

  function LongPointer(s: State, addr: nat): (p: nat)
    ensures p < 0x1000000
  {
    Bank0(s, addr) + 0x100 * Bank0(s, addr + 1) + 0x10000 * Bank0(s, addr + 2)
  }

  /** Modes that stay in bank 0 even for the second byte of a word. */
  predicate InBank0(m: Mode) {
    m.Dp? || m.DpX? || m.DpY? || m.StackRel?
  }

  /** Effective address of the (low) byte. */
  function EffectiveAddress(s: State, m: Mode): (ea: nat)
    ensures ea < 0x1000000
    ensures InBank0(m) ==> ea < 0x10000
  {
    var p1 := s.Operand(1);
    var bank := 0x10000 * s.dbr;
    match m
    case Dp => DirectAddress(s, p1)
    case DpX => DirectAddress(s, p1 + s.x)
    case DpY => DirectAddress(s, p1 + s.y)
    case Ind => DirectPointer(s, p1) + bank
    case IndX => DirectPointer(s, p1 + s.x) + bank
    case IndY => (DirectPointer(s, p1) + s.y + bank) % 0x1000000
    case IndLong => LongPointer(s, p1 + s.dpr)
    case IndLongY => (LongPointer(s, p1 + s.dpr) + s.y) % 0x1000000
    case Abs => p1 + 0x100 * s.Operand(2) + bank
    case AbsX => (p1 + 0x100 * s.Operand(2) + s.x + bank) % 0x1000000
    case AbsY => (p1 + 0x100 * s.Operand(2) + s.y + bank) % 0x1000000
    case AbsLong => p1 + 0x100 * s.Operand(2) + 0x10000 * s.Operand(3)
    case AbsLongX => (p1 + 0x100 * s.Operand(2) + 0x10000 * s.Operand(3) + s.x) % 0x1000000
    case StackRel => (p1 + s.sp) % 0x10000
    case StackRelY => (Bank0(s, p1 + s.sp) + 0x100 * Bank0(s, p1 + s.sp + 1) + s.y + bank) % 0x1000000
  }

  /** Address of the high byte of a word. */
  function NextAddress(m: Mode, ea: nat): nat {
    if InBank0(m) then (ea + 1) % 0x10000 else (ea + 1) % 0x1000000
  }

  function Length(m: Mode): nat {
    match m
    case Abs => 3 case AbsX => 3 case AbsY => 3
    case AbsLong => 4 case AbsLongX => 4
    case _ => 2
  }

  function SourceLength(from: Source, bits8: bool): nat {
    match from
    case Imm => if bits8 then 2 else 3
    case Mem(m) => Length(m)
  }

  /** The operand an instruction reads, one byte or two. */
  function ReadAt(s: State, m: Mode, ea: nat, bits8: bool): (v: Word)
    ensures bits8 ==> v < 0x100
  {
    s.Load(ea) + if bits8 then 0 else 0x100 * s.Load(NextAddress(m, ea))
  }

  function ReadSource(s: State, from: Source, bits8: bool): (v: Word)
    ensures bits8 ==> v < 0x100
  {
    match from
    case Imm => s.Operand(1) + if bits8 then 0 else 0x100 * s.Operand(2)
    case Mem(m) => ReadAt(s, m, EffectiveAddress(s, m), bits8)
  }

  function WriteAt(s: State, m: Mode, ea: nat, v: int, bits8: bool): State {
    if bits8 then s.Store(ea, v) else s.Store(ea, v).Store(NextAddress(m, ea), v / 0x100)
  }

  // ----- arithmetic: results are the C values before they are cut down to the register

  datatype Sum = Sum(value: nat, carry: bool, overflow: bool)

  predicate BitSet(v: int, weight: nat)
    requires weight > 0
  {
    v / weight % 2 == 1
  }

  /** Signed overflow of an addition: the operands agree in the top bit and the result does not. */
  predicate Overflows(a: int, v: int, r: int, top: nat)
    requires top > 0
  {
    BitSet(a, top) == BitSet(v, top) && BitSet(a, top) != BitSet(r, top)
  }

  function Adc8(a: Byte, v: Byte, carry: int, decimal: bool): Sum
    requires 0 <= carry <= 1
  {
    if decimal then
      var low := a % 0x10 + v % 0x10 + carry;
      var high := a - a % 0x10 + v - v % 0x10 + if low > 9 then 0x10 else 0;
      var r := high + (if low > 9 then low + 6 else low) % 0x10;
      var full := if r > 0x9f then r + 0x60 else r;
      Sum(full, full > 0xff, Overflows(a, v, r, 0x80))
    else
      var r := a + v + carry;
      Sum(r, r > 0xff, Overflows(a, v, r, 0x80))
  }

  /** The 16-bit decimal sum column by column: each takes what the columns below it came to. */
  function TensSum(c: Word, v: Word, carry: int): nat
    requires 0 <= carry <= 1
  {
    var t := c % 0x10 + v % 0x10 + carry;
    c / 0x10 % 0x10 * 0x10 + v / 0x10 % 0x10 * 0x10 + (if t > 9 then 0x10 else 0) + (if t > 9 then t + 6 else t) % 0x10
  }

  function HundredsSum(c: Word, v: Word, t: nat): nat {
    c / 0x100 % 0x10 * 0x100 + v / 0x100 % 0x10 * 0x100 + (if t > 0x9f then 0x100 else 0) +
      (if t > 0x9f then t + 0x60 else t) % 0x100
  }

  function ThousandsSum(c: Word, v: Word, t: nat): nat {
    c / 0x1000 * 0x1000 + v / 0x1000 * 0x1000 + (if t > 0x9ff then 0x1000 else 0) +
      (if t > 0x9ff then t + 0x600 else t) % 0x1000
  }

  /** V of the decimal case is computed from A, not from C. */
  function Adc16(c: Word, v: Word, carry: int, decimal: bool): Sum
    requires 0 <= carry <= 1
  {
    if decimal then
      var t := ThousandsSum(c, v, HundredsSum(c, v, TensSum(c, v, carry)));
      var full := if t > 0x9fff then t + 0x6000 else t;
      Sum(full, full > 0xffff, Overflows(c % 0x100, v, t, 0x8000))
    else
      var r := c + v + carry;
      Sum(r, r > 0xffff, Overflows(c, v, r, 0x8000))
  }

  /** Signed overflow of a subtraction: the operands differ in the top bit and the result leaves the minuend's. */
  predicate Underflows(a: int, v: int, r: int, top: nat)
    requires top > 0
  {
    BitSet(a, top) != BitSet(v, top) && BitSet(a, top) != BitSet(r, top)
  }

  /** One column of a decimal subtraction: sum of the minuend and the complement, corrected on a borrow. */
  function Column(sum: int, weight: nat): nat
    requires weight > 0
  {
    (if sum < 0x10 * weight then sum - 6 * weight else sum) / weight % 0x10 * weight
  }

  function Sbc8(a: Byte, v: Byte, carry: int, decimal: bool): Sum
    requires 0 <= carry <= 1
  {
    var r := carry + (0xff - v) + a;
    var overflow := Underflows(a, v, r, 0x80);
    if decimal then
      var s0 := a % 0x10 + (0xf - v % 0x10) + carry;
      var s1 := a + (0xff - v) + carry;
      Sum(Column(s0, 1) + Column(s1, 0x10), s1 > 0xff, overflow)
    else Sum(r, r > 0xff, overflow)
  }

  function Columns(s0: int, s1: int, s2: int, s3: int): nat {
    Column(s0, 1) + Column(s1, 0x10) + Column(s2, 0x100) + Column(s3, 0x1000)
  }

  /** The decimal case takes A where it needs C, in every column. */
  function Sbc16(c: Word, v: Word, carry: int, decimal: bool): Sum
    requires 0 <= carry <= 1
  {
    var r := carry + (0xffff - v) + c;
    var overflow := Underflows(c, v, r, 0x8000);
    if decimal then
      var a := c % 0x100;
      var s0 := a % 0x10 + (0xf - v % 0x10) + carry;
      var s1 := a + (0xff - v % 0x100) + carry;
      var s2 := a + (0xfff - v % 0x1000) + carry;
      var s3 := a + (0xffff - v) + carry;
      Sum(Columns(s0, s1, s2, s3), s3 > 0xffff, overflow)
    else Sum(r, r > 0xffff, overflow)
  }

  function SetSum(s: State, sum: Sum, bits8: bool): State {
    s.Flag(P_OVERFLOW, sum.overflow).Flag(P_CARRY, sum.carry).SetNZ(sum.value, bits8).SetAcc(sum.value, bits8)
  }

  /** CMP, CPX, CPY: C's unsigned subtraction, whose wrap leaves a value out of register range. */
  function Compare(s: State, r: Word, v: Word, bits8: bool): State {
    var diff := (r - v) % 0x1_0000_0000;
    s.Flag(P_CARRY, diff < if bits8 then 0x100 else 0x10000).SetNZ(diff, bits8)
  }

  function AdcSum(s: State, v: Word, bits8: bool): Sum
    requires bits8 ==> v < 0x100
  {
    if bits8 then Adc8(s.A(), v, s.Carry(), s.Has(P_DECIMAL)) else Adc16(s.c, v, s.Carry(), s.Has(P_DECIMAL))
  }

  function SbcSum(s: State, v: Word, bits8: bool): Sum
    requires bits8 ==> v < 0x100
  {
    if bits8 then Sbc8(s.A(), v, s.Carry(), s.Has(P_DECIMAL)) else Sbc16(s.c, v, s.Carry(), s.Has(P_DECIMAL))
  }

  function Accumulate(s: State, op: AluOp, v: Word, bits8: bool): State
    requires bits8 ==> v < 0x100
  {
    match op
    case Ora => Logical(s, BitOr(s.Acc(bits8), v), bits8)
    case And => Logical(s, BitAnd(s.Acc(bits8), v), bits8)
    case Eor => Logical(s, BitXor(s.Acc(bits8), v), bits8)
    case Lda => Logical(s, v, bits8)
    case Adc => SetSum(s, AdcSum(s, v, bits8), bits8)
    case Sbc => SetSum(s, SbcSum(s, v, bits8), bits8)
    case Cmp => Compare(s, s.Acc(bits8), v, bits8)
    case Bit => TestZero(TestTop(s, v, if bits8 then 0x80 else 0x8000), v, bits8)
    case BitImm => TestZero(s, v, bits8)
  }

  function TestTop(s: State, v: Word, top: nat): State
    requires top > 1
  {
    s.SetSign(BitSet(v, top)).Flag(P_OVERFLOW, BitSet(v, top / 2))
  }

  function TestZero(s: State, v: Word, bits8: bool): State {
    s.SetZero(BitAnd(v, s.Acc(bits8)) == 0)
  }

  function Logical(s: State, v: Word, bits8: bool): State {
    s.SetAcc(v, bits8).SetNZ(v, bits8)
  }

  /** New value of a read-modify-write operand. */
  function Modified(s: State, op: RmwOp, v: Word, bits8: bool): int {
    match op
    case Asl => 2 * v
    case Rol => 2 * v + s.Carry()
    case Lsr => v / 2
    case Ror => (v + if !s.Has(P_CARRY) then 0 else if bits8 then 0x100 else 0x10000) / 2
    case Inc => v + 1
    case Dec => v - 1
    case Tsb => BitOr(v, s.Acc(bits8))
    case Trb => BitAnd(v, 0xffff - s.Acc(bits8))
  }

  /** The flags it leaves: shifts move a bit into the carry, TSB and TRB test the old value against the accumulator. */
  function ModifyFlags(s: State, op: RmwOp, v: Word, result: int, bits8: bool): State {
    if op.Tsb? || op.Trb? then TestZero(s, v, bits8)
    else if op.Inc? || op.Dec? then s.SetNZ(result, bits8)
    else if op.Asl? || op.Rol? then
      s.Flag(P_CARRY, BitSet(result, if bits8 then 0x100 else 0x10000)).SetNZ(result, bits8)
    else s.Flag(P_CARRY, v % 2 == 1).SetNZ(result, bits8)
  }

  // ----- registers

  function GetIndex(s: State, r: Index): Word {
    if r.X? then s.x else s.y
  }

  function SetIndex(s: State, r: Index, v: Word): State {
    if r.X? then s.(x := v) else s.(y := v)
  }

  /** Set an index register at its current width, with N and Z. */
  function LoadIndex(s: State, r: Index, v: Word): State {
    var w := if s.X8() then Lo(v) else v;
    SetIndex(s, r, w).SetNZ(w, s.X8())
  }

  function CopyRegister(s: State, t: Transfer): State {
    match t
    case Tax => LoadIndex(s, X, s.c)
    case Tay => LoadIndex(s, Y, s.c)
    case Tsx => LoadIndex(s, X, s.sp)
    case Txa => s.SetAcc(s.x, s.M8()).SetNZ(s.x, s.M8())
    case Tya => s.SetAcc(s.y, s.M8()).SetNZ(s.y, s.M8())
    case Txs => s.(sp := if !s.emul || BitSet(s.x, 0x100) then s.x else s.x + 0x100)
    case Txy => s.(y := s.x).SetNZ(s.x, s.X8())
    case Tyx => s.(x := s.y).SetNZ(s.y, s.X8())
    case Tcd => s.(dpr := s.c).SetNZ(s.c, false)
    case Tdc => s.(c := s.dpr).SetNZ(s.dpr, false)
    case Tcs => s.(sp := if s.emul then 0x100 + s.A() else s.c)
    case Tsc => s.(c := s.sp).SetNZ(s.sp, false)
    case Xba => s.(c := 0x100 * s.A() + Hi(s.c))
  }

  // ----- control flow

  function Holds(s: State, cond: Condition): bool {
    match cond
    case Bpl => !s.Sign()
    case Bmi => s.Sign()
    case Bvc => !s.Has(P_OVERFLOW)
    case Bvs => s.Has(P_OVERFLOW)
    case Bcc => !s.Has(P_CARRY)
    case Bcs => s.Has(P_CARRY)
    case Bne => !s.Zero()
    case Beq => s.Zero()
    case Always => true
  }

  function SignedByte(b: Byte): int {
    if b < 0x80 then b else b - 0x100
  }

  function OperandWord(s: State): Word {
    s.Operand(1) + 0x100 * s.Operand(2)
  }

  function Vectored(s: State, vector: nat): State {
    s.Flag(P_DECIMAL, false).Flag(P_INTERRUPT, true).(pc := s.Load(vector) + 0x100 * s.Load(vector + 1), pbr := 0)
  }

  function Break(s: State): State {
    var t := s.Skip(2);
    if s.emul then
      var u := t.Flag(P_BREAK, true).PushWord(t.pc);
      Vectored(u.Push((u.Status() | P_UNUSED) as int), 0xfffe)
    else
      var u := t.Push(t.pbr).PushWord(t.pc);
      Vectored(u.Push(u.Status() as int), 0xffe6)
  }

  function ReturnFromInterrupt(s: State): State {
    var t := PullStatus(s);
    var u := t.PulledWord();
    if s.emul then u.(pc := t.TopWord()) else u.Pulled().(pc := t.TopWord(), pbr := u.Top())
  }

  function JumpSubroutine(s: State): State {
    var t := s.Skip(2);
    t.PushWord(t.pc).(pc := OperandWord(s))
  }

  /** Jump through a table in the program bank, its address completed by the byte at the program counter. */
  function TableJump(s: State, low: Byte): State {
    var ea := (low + 0x100 * s.Fetch(s.pc) + s.x) % 0x10000;
    s.(pc := s.Fetch(ea) + 0x100 * s.Fetch((ea + 1) % 0x10000))
  }

  /** The high byte of the table's address is fetched after the return address has been pushed. */
  function JumpSubroutineIndexed(s: State): State {
    var t := s.Skip(2);
    TableJump(PushWide(t, t.pc), s.Operand(1))
  }

  /** The new bank is fetched after the old one has been pushed. */
  function JumpSubroutineLong(s: State): State {
    var t := s.Skip(3).PushRaw(s.pbr);
    var bank := t.Fetch(t.pc);
    PushWide(t, t.pc).(pbr := bank, pc := OperandWord(s))
  }

  /** Undo an unwrapped descent: emulation mode folds the pointer back into page 1. */
  function Rewrapped(s: State, sp: nat): State {
    s.(sp := if s.emul then 0x100 + sp % 0x100 else sp % 0x10000)
  }

  function Raw(s: State, n: nat): Byte {
    s.Load((s.sp + n) % 0x10000)
  }

  function ReturnLong(s: State): State {
    Rewrapped(s, s.sp + 3).(pc := (Raw(s, 1) + 0x100 * Raw(s, 2) + 1) % 0x10000, pbr := Raw(s, 3))
  }

  function Return(s: State): State {
    s.PulledWord().(pc := (s.TopWord() + 1) % 0x10000)
  }

  // ----- block move: one byte an execution, the instruction repeating until C runs out

  function MoveStep(s: State, up: bool): State {
    var last := s.c == 0;
    var dest := if last then s.Operand(1) else s.Fetch(s.pc + 1);
    var source := if last then s.Operand(2) else s.Fetch(s.pc + 2);
    var d := if up then 1 else -1;
    var t := s.Store(s.y + 0x10000 * dest, s.Load(s.x + 0x10000 * source));
    var u := t.(dbr := dest, x := (s.x + d) % 0x10000, y := (s.y + d) % 0x10000, c := (s.c - 1) % 0x10000).Narrow();
    if last then u.Skip(3) else u
  }

  // ----- status

  function Mask(flag: FlagBit): bv8 {
    match flag
    case C => P_CARRY
    case I => P_INTERRUPT
    case D => P_DECIMAL
    case V => P_OVERFLOW
  }

  function ChosenBit(p: bv8, bits: bv8, bit: bv8, on: bool): bv8 {
    if bits & bit != 0 then WithBits(p, bit, on) else p
  }

  /** What REP and SEP make of reg_p: V, D, I and C always, M and X only in native mode. */
  function StatusBits(p: bv8, bits: bv8, on: bool, emul: bool): bv8 {
    var v := ChosenBit(p, bits, P_OVERFLOW, on);
    var x := if emul then v else ChosenBit(ChosenBit(v, bits, P_M, on), bits, P_X, on);
    ChosenBit(ChosenBit(ChosenBit(x, bits, P_DECIMAL, on), bits, P_INTERRUPT, on), bits, P_CARRY, on)
  }

  function ChosenSignZero(s: State, bits: bv8, on: bool): State {
    s.(n := if bits & P_SIGN != 0 then if on then 0x80 else 0 else s.n,
       z := if bits & P_ZERO != 0 then if on then 0 else 1 else s.z)
  }

  /** REP and SEP: the bits of reg_p, and N and Z in their own registers. */
  function ChangeStatus(s: State, bits: bv8, on: bool): State {
    var t := ChosenSignZero(s, bits, on).(p := StatusBits(s.p, bits, on, s.emul));
    if on && bits & P_X != 0 && !s.emul then t.Narrow() else t
  }

  /** Exchange carry and emulation. */
  function ExchangeEmulation(s: State): State {
    if s.Has(P_CARRY) == s.emul then s
    else if s.Has(P_CARRY) then
      s.(emul := true, x := Lo(s.x), y := Lo(s.y), sp := 0x100 + Lo(s.sp)).Flag(P_CARRY, false).Flag(P_BREAK, false)
    else
      s.(emul := false).Flag(P_CARRY, true).Flag(P_M, true).Flag(P_X, true)
  }

  // ----- one instruction

  function ExecuteFlow(s: State, op: FlowOp): State {
    match op
    case Branch(cond) => if Holds(s, cond) then s.(pc := (s.pc + 2 + SignedByte(s.Operand(1))) % 0x10000) else s.Skip(2)
    case Brl => s.Skip(3 + OperandWord(s))
    case Jmp => s.(pc := OperandWord(s))
    case JmpInd => s.(pc := s.Load(OperandWord(s)) + 0x100 * Bank0(s, OperandWord(s) + 1))
    case JmpIndLong => s.(pc := s.Load(OperandWord(s)) + 0x100 * Bank0(s, OperandWord(s) + 1),
      pbr := Bank0(s, OperandWord(s) + 2))
    case JmpIndX => TableJump(s.Skip(2), s.Operand(1))
    case JmpLong => s.(pc := OperandWord(s), pbr := s.Operand(3))
    case Jsr => JumpSubroutine(s)
    case JsrIndX => JumpSubroutineIndexed(s)
    case JsrLong => JumpSubroutineLong(s)
    case Rts => Return(s)
    case Rtl => ReturnLong(s)
    case Rti => ReturnFromInterrupt(s)
    case Brk => Break(s)
  }

  function PushIndex(s: State, v: Word, bits8: bool): State {
    if bits8 then s.Push(v) else s.PushWord(v)
  }

  /** PEA, PEI, PER and PHD: high byte first, only the second push wrapping. */
  function PushWide(s: State, v: int): State {
    s.PushRaw(Hi(v)).Push(Lo(v))
  }

  function EffectiveWord(s: State, ea: nat): Word {
    Bank0(s, ea) + 0x100 * Bank0(s, ea + 1)
  }

  function PushedStatus(s: State): Byte {
    (if s.emul then s.Status() | P_UNUSED | P_BREAK else s.Status()) as int
  }

  function ExecutePush(s: State, op: PushOp): State {
    match op
    case Pha => PushIndex(s.Skip(1), s.Acc(s.M8()), s.M8())
    case Ph(r) => PushIndex(s.Skip(1), GetIndex(s, r), s.X8())
    case Phb => PushIndex(s.Skip(1), s.dbr, true)
    case Phk => PushIndex(s.Skip(1), s.pbr, true)
    case Php => PushIndex(s.Skip(1), PushedStatus(s), true)
    case Phd => PushWide(s.Skip(1), s.dpr)
    case Pea => PushWide(s.Skip(3), OperandWord(s))
    case Pei => PushWide(s.Skip(2), EffectiveWord(s, s.Operand(1) + s.dpr))
    case Per => PushWide(s.Skip(3), s.Skip(3).pc + OperandWord(s))
  }

  function PullAccumulator(s: State, bits8: bool): State {
    if bits8 then s.Pulled().SetAcc(s.Top(), true).SetNZ(s.Top(), true)
    else s.PulledWord().SetAcc(s.TopWord(), false).SetNZ(s.TopWord(), false)
  }

  function PullIndex(s: State, r: Index, bits8: bool): State {
    if bits8 then SetIndex(s.Pulled(), r, s.Top()).SetNZ(s.Top(), true)
    else SetIndex(s.PulledWord(), r, s.TopWord()).SetNZ(s.TopWord(), false)
  }

  function PullStatus(s: State): State {
    s.Pulled().SetStatus(s.Top()).Narrow()
  }

  function PullDirect(s: State): State {
    var v: Word := Raw(s, 1) + 0x100 * Raw(s, 2);
    Rewrapped(s, s.sp + 2).(dpr := v).SetNZ(v, false)
  }

  function ExecutePull(s: State, op: PullOp): State {
    match op
    case Pla => PullAccumulator(s.Skip(1), s.M8())
    case Pl(r) => PullIndex(s.Skip(1), r, s.X8())
    case Plb => s.Skip(1).Pulled().(dbr := s.Top()).SetNZ(s.Top(), true)
    case Plp => PullStatus(s.Skip(1))
    case Pld => PullDirect(s.Skip(1))
  }

  function ExecuteSystem(s: State, op: SystemOp): State {
    match op
    case ChangeFlag(flag, on) => s.Skip(1).Flag(Mask(flag), on)
    case Rep => ChangeStatus(s.Skip(2), s.Operand(1) as bv8, false)
    case Sep => ChangeStatus(s.Skip(2), s.Operand(1) as bv8, true)
    case Xce => ExchangeEmulation(s.Skip(1))
    case Nop => s.Skip(1)
    case Wdm => s.Skip(2)
    case Halt => s
  }

  function StoredValue(s: State, what: Stored): Word {
    match what
    case FromC => s.c
    case FromX => s.x
    case FromY => s.y
    case FromZero => 0
  }

  function StoredWidth(s: State, what: Stored): bool {
    if what.FromX? || what.FromY? then s.X8() else s.M8()
  }

  function StoreOperand(s: State, what: Stored, m: Mode): State {
    WriteAt(s, m, EffectiveAddress(s, m), StoredValue(s, what), StoredWidth(s, what)).Skip(Length(m))
  }

  function ReadModifyWrite(s: State, op: RmwOp, target: Target): State {
    match target
    case Acc =>
      var v := Modified(s, op, s.Acc(s.M8()), s.M8());
      ModifyFlags(s, op, s.Acc(s.M8()), v, s.M8()).SetAcc(v, s.M8()).Skip(1)
    case Cell(m) =>
      var ea := EffectiveAddress(s, m);
      var operand := ReadAt(s, m, ea, s.M8());
      var v := Modified(s, op, operand, s.M8());
      WriteAt(ModifyFlags(s, op, operand, v, s.M8()), m, ea, v, s.M8()).Skip(Length(m))
  }

  function AccumulatorInstr(s: State, op: AluOp, from: Source): State {
    Accumulate(s, op, ReadSource(s, from, s.M8()), s.M8()).Skip(SourceLength(from, s.M8()))
  }

  function LoadInstr(s: State, r: Index, from: Source): State {
    LoadIndex(s, r, ReadSource(s, from, s.X8())).Skip(SourceLength(from, s.X8()))
  }

  function CompareInstr(s: State, r: Index, from: Source): State {
    Compare(s, GetIndex(s, r), ReadSource(s, from, s.X8()), s.X8()).Skip(SourceLength(from, s.X8()))
  }

  function StepInstr(s: State, r: Index, up: bool): State {
    LoadIndex(s.Skip(1), r, (GetIndex(s, r) + if up then 1 else -1) % 0x10000)
  }

  function Execute(s: State, i: Instr): State {
    match i
    case Alu(op, from) => AccumulatorInstr(s, op, from)
    case Rmw(op, target) => ReadModifyWrite(s, op, target)
    case Write(what, m) => StoreOperand(s, what, m)
    case Ld(r, from) => LoadInstr(s, r, from)
    case Cp(r, from) => CompareInstr(s, r, from)
    case StepIndex(r, up) => StepInstr(s, r, up)
    case Copy(t) => CopyRegister(s.Skip(1), t)
    case Move(up) => MoveStep(s, up)
    case Flow(op) => ExecuteFlow(s, op)
    case Push(op) => ExecutePush(s, op)
    case Pull(op) => ExecutePull(s, op)
    case System(op) => ExecuteSystem(s, op)
  }
}
