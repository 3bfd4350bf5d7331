/** The opcode switch (emulator/65816core.c). */
module Opcodes {
  import opened Primitives
  import opened Machine
  import opened Instructions

  /** Opcodes 0x02, 0xcb and 0xdb are stubbed out and leave the machine where it is. */
  function Decode(opcode: Byte): Instr {
    if opcode < 0x40 then Decode00(opcode)
    else if opcode < 0x80 then Decode40(opcode)
    else if opcode < 0xc0 then Decode80(opcode)
    else DecodeC0(opcode)
  }

  function Decode00(opcode: Byte): Instr
    requires opcode < 0x40
  {
    match opcode
    case 0x00 => Flow(Brk) case 0x01 => Alu(Ora, Mem(IndX))
    case 0x02 => System(Halt) case 0x03 => Alu(Ora, Mem(StackRel))
    case 0x04 => Rmw(Tsb, Cell(Dp)) case 0x05 => Alu(Ora, Mem(Dp))
    case 0x06 => Rmw(Asl, Cell(Dp)) case 0x07 => Alu(Ora, Mem(IndLong))
    case 0x08 => Push(Php) case 0x09 => Alu(Ora, Imm) case 0x0a => Rmw(Asl, Acc) case 0x0b => Push(Phd)
    case 0x0c => Rmw(Tsb, Cell(Abs)) case 0x0d => Alu(Ora, Mem(Abs))
    case 0x0e => Rmw(Asl, Cell(Abs)) case 0x0f => Alu(Ora, Mem(AbsLong))
    case 0x10 => Flow(Branch(Bpl)) case 0x11 => Alu(Ora, Mem(IndY))
    case 0x12 => Alu(Ora, Mem(Ind)) case 0x13 => Alu(Ora, Mem(StackRelY))
    case 0x14 => Rmw(Trb, Cell(Dp)) case 0x15 => Alu(Ora, Mem(DpX))
    case 0x16 => Rmw(Asl, Cell(DpX)) case 0x17 => Alu(Ora, Mem(IndLongY))
    case 0x18 => System(ChangeFlag(C, false)) case 0x19 => Alu(Ora, Mem(AbsY))
    case 0x1a => Rmw(Inc, Acc) case 0x1b => Copy(Tcs)
    case 0x1c => Rmw(Trb, Cell(Abs)) case 0x1d => Alu(Ora, Mem(AbsX))
    case 0x1e => Rmw(Asl, Cell(AbsX)) case 0x1f => Alu(Ora, Mem(AbsLongX))
    case 0x20 => Flow(Jsr) case 0x21 => Alu(And, Mem(IndX))
    case 0x22 => Flow(JsrLong) case 0x23 => Alu(And, Mem(StackRel))
    case 0x24 => Alu(Bit, Mem(Dp)) case 0x25 => Alu(And, Mem(Dp))
    case 0x26 => Rmw(Rol, Cell(Dp)) case 0x27 => Alu(And, Mem(IndLong))
    case 0x28 => Pull(Plp) case 0x29 => Alu(And, Imm) case 0x2a => Rmw(Rol, Acc) case 0x2b => Pull(Pld)
    case 0x2c => Alu(Bit, Mem(Abs)) case 0x2d => Alu(And, Mem(Abs))
    case 0x2e => Rmw(Rol, Cell(Abs)) case 0x2f => Alu(And, Mem(AbsLong))
    case 0x30 => Flow(Branch(Bmi)) case 0x31 => Alu(And, Mem(IndY))
    case 0x32 => Alu(And, Mem(Ind)) case 0x33 => Alu(And, Mem(StackRelY))
    case 0x34 => Alu(Bit, Mem(DpX)) case 0x35 => Alu(And, Mem(DpX))
    case 0x36 => Rmw(Rol, Cell(DpX)) case 0x37 => Alu(And, Mem(IndLongY))
    case 0x38 => System(ChangeFlag(C, true)) case 0x39 => Alu(And, Mem(AbsY))
    case 0x3a => Rmw(Dec, Acc) case 0x3b => Copy(Tsc)
    case 0x3c => Alu(Bit, Mem(AbsX)) case 0x3d => Alu(And, Mem(AbsX))
    case 0x3e => Rmw(Rol, Cell(AbsX)) case 0x3f => Alu(And, Mem(AbsLongX))
  }

  function Decode40(opcode: Byte): Instr
    requires 0x40 <= opcode < 0x80
  {
    match opcode
    case 0x40 => Flow(Rti) case 0x41 => Alu(Eor, Mem(IndX))
    case 0x42 => System(Wdm) case 0x43 => Alu(Eor, Mem(StackRel))
    case 0x44 => Move(false) case 0x45 => Alu(Eor, Mem(Dp))
    case 0x46 => Rmw(Lsr, Cell(Dp)) case 0x47 => Alu(Eor, Mem(IndLong))
    case 0x48 => Push(Pha) case 0x49 => Alu(Eor, Imm) case 0x4a => Rmw(Lsr, Acc) case 0x4b => Push(Phk)
    case 0x4c => Flow(Jmp) case 0x4d => Alu(Eor, Mem(Abs))
    case 0x4e => Rmw(Lsr, Cell(Abs)) case 0x4f => Alu(Eor, Mem(AbsLong))
    case 0x50 => Flow(Branch(Bvc)) case 0x51 => Alu(Eor, Mem(IndY))
    case 0x52 => Alu(Eor, Mem(Ind)) case 0x53 => Alu(Eor, Mem(StackRelY))
    case 0x54 => Move(true) case 0x55 => Alu(Eor, Mem(DpX))
    case 0x56 => Rmw(Lsr, Cell(DpX)) case 0x57 => Alu(Eor, Mem(IndLongY))
    case 0x58 => System(ChangeFlag(I, false)) case 0x59 => Alu(Eor, Mem(AbsY))
    case 0x5a => Push(Ph(Y)) case 0x5b => Copy(Tcd)
    case 0x5c => Flow(JmpLong) case 0x5d => Alu(Eor, Mem(AbsX))
    case 0x5e => Rmw(Lsr, Cell(AbsX)) case 0x5f => Alu(Eor, Mem(AbsLongX))
    case 0x60 => Flow(Rts) case 0x61 => Alu(Adc, Mem(IndX)) case 0x62 => Push(Per) case 0x63 => Alu(Adc, Mem(StackRel))
    case 0x64 => Write(FromZero, Dp) case 0x65 => Alu(Adc, Mem(Dp))
    case 0x66 => Rmw(Ror, Cell(Dp)) case 0x67 => Alu(Adc, Mem(IndLong))
    case 0x68 => Pull(Pla) case 0x69 => Alu(Adc, Imm) case 0x6a => Rmw(Ror, Acc) case 0x6b => Flow(Rtl)
    case 0x6c => Flow(JmpInd) case 0x6d => Alu(Adc, Mem(Abs))
    case 0x6e => Rmw(Ror, Cell(Abs)) case 0x6f => Alu(Adc, Mem(AbsLong))
    case 0x70 => Flow(Branch(Bvs)) case 0x71 => Alu(Adc, Mem(IndY))
    case 0x72 => Alu(Adc, Mem(Ind)) case 0x73 => Alu(Adc, Mem(StackRelY))
    case 0x74 => Write(FromZero, DpX) case 0x75 => Alu(Adc, Mem(DpX))
    case 0x76 => Rmw(Ror, Cell(DpX)) case 0x77 => Alu(Adc, Mem(IndLongY))
    case 0x78 => System(ChangeFlag(I, true)) case 0x79 => Alu(Adc, Mem(AbsY))
    case 0x7a => Pull(Pl(Y)) case 0x7b => Copy(Tdc)
    case 0x7c => Flow(JmpIndX) case 0x7d => Alu(Adc, Mem(AbsX))
    case 0x7e => Rmw(Ror, Cell(AbsX)) case 0x7f => Alu(Adc, Mem(AbsLongX))
  }

  function Decode80(opcode: Byte): Instr
    requires 0x80 <= opcode < 0xc0
  {
    match opcode
    case 0x80 => Flow(Branch(Always)) case 0x81 => Write(FromC, IndX)
    case 0x82 => Flow(Brl) case 0x83 => Write(FromC, StackRel)
    case 0x84 => Write(FromY, Dp) case 0x85 => Write(FromC, Dp)
    case 0x86 => Write(FromX, Dp) case 0x87 => Write(FromC, IndLong)
    case 0x88 => StepIndex(Y, false) case 0x89 => Alu(BitImm, Imm) case 0x8a => Copy(Txa) case 0x8b => Push(Phb)
    case 0x8c => Write(FromY, Abs) case 0x8d => Write(FromC, Abs)
    case 0x8e => Write(FromX, Abs) case 0x8f => Write(FromC, AbsLong)
    case 0x90 => Flow(Branch(Bcc)) case 0x91 => Write(FromC, IndY)
    case 0x92 => Write(FromC, Ind) case 0x93 => Write(FromC, StackRelY)
    case 0x94 => Write(FromY, DpX) case 0x95 => Write(FromC, DpX)
    case 0x96 => Write(FromX, DpY) case 0x97 => Write(FromC, IndLongY)
    case 0x98 => Copy(Tya) case 0x99 => Write(FromC, AbsY) case 0x9a => Copy(Txs) case 0x9b => Copy(Txy)
    case 0x9c => Write(FromZero, Abs) case 0x9d => Write(FromC, AbsX)
    case 0x9e => Write(FromZero, AbsX) case 0x9f => Write(FromC, AbsLongX)
    case 0xa0 => Ld(Y, Imm) case 0xa1 => Alu(Lda, Mem(IndX))
    case 0xa2 => Ld(X, Imm) case 0xa3 => Alu(Lda, Mem(StackRel))
    case 0xa4 => Ld(Y, Mem(Dp)) case 0xa5 => Alu(Lda, Mem(Dp))
    case 0xa6 => Ld(X, Mem(Dp)) case 0xa7 => Alu(Lda, Mem(IndLong))
    case 0xa8 => Copy(Tay) case 0xa9 => Alu(Lda, Imm) case 0xaa => Copy(Tax) case 0xab => Pull(Plb)
    case 0xac => Ld(Y, Mem(Abs)) case 0xad => Alu(Lda, Mem(Abs))
    case 0xae => Ld(X, Mem(Abs)) case 0xaf => Alu(Lda, Mem(AbsLong))
    case 0xb0 => Flow(Branch(Bcs)) case 0xb1 => Alu(Lda, Mem(IndY))
    case 0xb2 => Alu(Lda, Mem(Ind)) case 0xb3 => Alu(Lda, Mem(StackRelY))
    case 0xb4 => Ld(Y, Mem(DpX)) case 0xb5 => Alu(Lda, Mem(DpX))
    case 0xb6 => Ld(X, Mem(DpY)) case 0xb7 => Alu(Lda, Mem(IndLongY))
    case 0xb8 => System(ChangeFlag(V, false)) case 0xb9 => Alu(Lda, Mem(AbsY))
    case 0xba => Copy(Tsx) case 0xbb => Copy(Tyx)
    case 0xbc => Ld(Y, Mem(AbsX)) case 0xbd => Alu(Lda, Mem(AbsX))
    case 0xbe => Ld(X, Mem(AbsY)) case 0xbf => Alu(Lda, Mem(AbsLongX))
  }

  function DecodeC0(opcode: Byte): Instr
    requires opcode >= 0xc0
  {
    match opcode
    case 0xc0 => Cp(Y, Imm) case 0xc1 => Alu(Cmp, Mem(IndX))
    case 0xc2 => System(Rep) case 0xc3 => Alu(Cmp, Mem(StackRel))
    case 0xc4 => Cp(Y, Mem(Dp)) case 0xc5 => Alu(Cmp, Mem(Dp))
    case 0xc6 => Rmw(Dec, Cell(Dp)) case 0xc7 => Alu(Cmp, Mem(IndLong))
    case 0xc8 => StepIndex(Y, true) case 0xc9 => Alu(Cmp, Imm)
    case 0xca => StepIndex(X, false) case 0xcb => System(Halt)
    case 0xcc => Cp(Y, Mem(Abs)) case 0xcd => Alu(Cmp, Mem(Abs))
    case 0xce => Rmw(Dec, Cell(Abs)) case 0xcf => Alu(Cmp, Mem(AbsLong))
    case 0xd0 => Flow(Branch(Bne)) case 0xd1 => Alu(Cmp, Mem(IndY))
    case 0xd2 => Alu(Cmp, Mem(Ind)) case 0xd3 => Alu(Cmp, Mem(StackRelY))
    case 0xd4 => Push(Pei) case 0xd5 => Alu(Cmp, Mem(DpX))
    case 0xd6 => Rmw(Dec, Cell(DpX)) case 0xd7 => Alu(Cmp, Mem(IndLongY))
    case 0xd8 => System(ChangeFlag(D, false)) case 0xd9 => Alu(Cmp, Mem(AbsY))
    case 0xda => Push(Ph(X)) case 0xdb => System(Halt)
    case 0xdc => Flow(JmpIndLong) case 0xdd => Alu(Cmp, Mem(AbsX))
    case 0xde => Rmw(Dec, Cell(AbsX)) case 0xdf => Alu(Cmp, Mem(AbsLongX))
    case 0xe0 => Cp(X, Imm) case 0xe1 => Alu(Sbc, Mem(IndX))
    case 0xe2 => System(Sep) case 0xe3 => Alu(Sbc, Mem(StackRel))
    case 0xe4 => Cp(X, Mem(Dp)) case 0xe5 => Alu(Sbc, Mem(Dp))
    case 0xe6 => Rmw(Inc, Cell(Dp)) case 0xe7 => Alu(Sbc, Mem(IndLong))
    case 0xe8 => StepIndex(X, true) case 0xe9 => Alu(Sbc, Imm) case 0xea => System(Nop) case 0xeb => Copy(Xba)
    case 0xec => Cp(X, Mem(Abs)) case 0xed => Alu(Sbc, Mem(Abs))
    case 0xee => Rmw(Inc, Cell(Abs)) case 0xef => Alu(Sbc, Mem(AbsLong))
    case 0xf0 => Flow(Branch(Beq)) case 0xf1 => Alu(Sbc, Mem(IndY))
    case 0xf2 => Alu(Sbc, Mem(Ind)) case 0xf3 => Alu(Sbc, Mem(StackRelY))
    case 0xf4 => Push(Pea) case 0xf5 => Alu(Sbc, Mem(DpX))
    case 0xf6 => Rmw(Inc, Cell(DpX)) case 0xf7 => Alu(Sbc, Mem(IndLongY))
    case 0xf8 => System(ChangeFlag(D, true)) case 0xf9 => Alu(Sbc, Mem(AbsY))
    case 0xfa => Pull(Pl(X)) case 0xfb => System(Xce)
    case 0xfc => Flow(JsrIndX) case 0xfd => Alu(Sbc, Mem(AbsX))
    case 0xfe => Rmw(Inc, Cell(AbsX)) case 0xff => Alu(Sbc, Mem(AbsLongX))
  }

  function Step(s: State): State {
    Execute(s, Decode(s.Fetch(s.pc)))
  }

  /** n applications of a step. */
  function Iterate(step: State -> State, s: State, n: nat): State
    decreases n
  {
    if n == 0 then s else Iterate(step, step(s), n - 1)
  }

  function Run(s: State, n: nat): State {
    Iterate(Step, s, n)
  }

  /** A run is one step and the rest. */
  lemma RunOn(s: State, t: State, n: nat)
    requires n > 0 && t == Step(s)
    ensures Run(t, n - 1) == Run(s, n)
  {
    IterateOn(Step, s, t, n);
  }

  lemma IterateOn(step: State -> State, s: State, t: State, n: nat)
    requires n > 0 && t == step(s)
    ensures Iterate(step, t, n - 1) == Iterate(step, s, n)
  {
  }
}
