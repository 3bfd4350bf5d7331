/** The order in the opcode switch: an operation has all its operands at the same distances from its first
    opcode (emulator/65816core.c). */
module Matrix {
  import opened Primitives
  import opened Instructions
  import opened Opcodes

  /** Where the seven operations of the accumulator start. */
  predicate StartsAt(op: AluOp, first: Byte) {
    match op
    case Ora => first == 0x01
    case And => first == 0x21
    case Eor => first == 0x41
    case Adc => first == 0x61
    case Lda => first == 0xa1
    case Cmp => first == 0xc1
    case Sbc => first == 0xe1
    case _ => false
  }

  lemma ShortRow(op: AluOp, first: Byte)
    requires StartsAt(op, first)
    ensures Decode(first) == Alu(op, Mem(IndX)) && Decode(first + 0x04) == Alu(op, Mem(Dp))
    ensures Decode(first + 0x08) == Alu(op, Imm) && Decode(first + 0x0c) == Alu(op, Mem(Abs))
    ensures Decode(first + 0x10) == Alu(op, Mem(IndY)) && Decode(first + 0x14) == Alu(op, Mem(DpX))
    ensures Decode(first + 0x18) == Alu(op, Mem(AbsY)) && Decode(first + 0x1c) == Alu(op, Mem(AbsX))
  {
    match op
    case Ora => case And => case Eor => case Adc => case Lda => case Cmp => case Sbc =>
  }

  lemma LongRow(op: AluOp, first: Byte)
    requires StartsAt(op, first)
    ensures Decode(first + 0x02) == Alu(op, Mem(StackRel)) && Decode(first + 0x06) == Alu(op, Mem(IndLong))
    ensures Decode(first + 0x0e) == Alu(op, Mem(AbsLong)) && Decode(first + 0x11) == Alu(op, Mem(Ind))
    ensures Decode(first + 0x12) == Alu(op, Mem(StackRelY)) && Decode(first + 0x16) == Alu(op, Mem(IndLongY))
    ensures Decode(first + 0x1e) == Alu(op, Mem(AbsLongX))
  {
    match op
    case Ora => case And => case Eor => case Adc => case Lda => case Cmp => case Sbc =>
  }

  /** STA has the same operands, except for the immediate one. */
  lemma StoreRow()
    ensures Decode(0x81) == Write(FromC, IndX) && Decode(0x83) == Write(FromC, StackRel)
    ensures Decode(0x85) == Write(FromC, Dp) && Decode(0x87) == Write(FromC, IndLong)
    ensures Decode(0x8d) == Write(FromC, Abs) && Decode(0x8f) == Write(FromC, AbsLong)
    ensures Decode(0x91) == Write(FromC, IndY) && Decode(0x92) == Write(FromC, Ind)
    ensures Decode(0x93) == Write(FromC, StackRelY) && Decode(0x95) == Write(FromC, DpX)
    ensures Decode(0x97) == Write(FromC, IndLongY) && Decode(0x99) == Write(FromC, AbsY)
    ensures Decode(0x9d) == Write(FromC, AbsX) && Decode(0x9f) == Write(FromC, AbsLongX)
  {
  }

  /** Shifts and steps: four operands in memory, and the accumulator. */
  lemma ModifyRow(op: RmwOp, first: Byte, acc: Byte)
    requires match op
             case Asl => first == 0x06 && acc == 0x0a
             case Rol => first == 0x26 && acc == 0x2a
             case Lsr => first == 0x46 && acc == 0x4a
             case Ror => first == 0x66 && acc == 0x6a
             case Dec => first == 0xc6 && acc == 0x3a
             case Inc => first == 0xe6 && acc == 0x1a
             case _ => false
    ensures Decode(first) == Rmw(op, Cell(Dp)) && Decode(first + 0x08) == Rmw(op, Cell(Abs))
    ensures Decode(first + 0x10) == Rmw(op, Cell(DpX)) && Decode(first + 0x18) == Rmw(op, Cell(AbsX))
    ensures Decode(acc) == Rmw(op, Acc)
  {
    match op
    case Asl => case Rol => case Lsr => case Ror => case Dec => case Inc =>
  }

  /** The index registers: each can be indexed by the other. */
  lemma IndexRow(r: Index, load: Byte, compare: Byte, store: Byte)
    requires match r
             case X => load == 0xa2 && compare == 0xe0 && store == 0x86
             case Y => load == 0xa0 && compare == 0xc0 && store == 0x84
    ensures Decode(load) == Ld(r, Imm) && Decode(load + 0x04) == Ld(r, Mem(Dp)) &&
            Decode(load + 0x0c) == Ld(r, Mem(Abs))
    ensures Decode(load + 0x14) == Ld(r, Mem(if r.X? then DpY else DpX))
    ensures Decode(load + 0x1c) == Ld(r, Mem(if r.X? then AbsY else AbsX))
    ensures Decode(compare) == Cp(r, Imm) && Decode(compare + 0x04) == Cp(r, Mem(Dp)) &&
            Decode(compare + 0x0c) == Cp(r, Mem(Abs))
    ensures Decode(store) == Write(if r.X? then FromX else FromY, Dp)
    ensures Decode(store + 0x08) == Write(if r.X? then FromX else FromY, Abs)
    ensures Decode(store + 0x10) == Write(if r.X? then FromX else FromY, if r.X? then DpY else DpX)
  {
    match r
    case X => case Y =>
  }

  /** Clearing, and testing against the accumulator, with and without an index. */
  lemma TestRow(indexed: bool, clear: Byte, test: Byte)
    requires clear == (if indexed then 0x74 else 0x64) && test == (if indexed then 0x34 else 0x24)
    ensures Decode(clear) == Write(FromZero, if indexed then DpX else Dp)
    ensures Decode(if indexed then 0x9e else 0x9c) == Write(FromZero, if indexed then AbsX else Abs)
    ensures Decode(test) == Alu(Bit, Mem(if indexed then DpX else Dp))
    ensures Decode(test + 0x08) == Alu(Bit, Mem(if indexed then AbsX else Abs)) && Decode(0x89) == Alu(BitImm, Imm)
  {
    if indexed {
    }
  }

  lemma SetRow(op: RmwOp, first: Byte)
    requires (op == Tsb && first == 0x04) || (op == Trb && first == 0x14)
    ensures Decode(first) == Rmw(op, Cell(Dp)) && Decode(first + 0x08) == Rmw(op, Cell(Abs))
  {
  }
}
