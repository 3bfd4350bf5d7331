/** Where each addressing mode looks, said of the bytes of the instruction and of memory
    (emulator/65816core.c). */
module Addressing {
  import opened Primitives
  import opened Machine
  import opened Instructions

  const ADDRESSES := 0x1000000

  // ----- what an address depends on

  predicate UsesX(m: Mode) {
    m.DpX? || m.IndX? || m.AbsX? || m.AbsLongX?
  }

  predicate UsesY(m: Mode) {
    m.DpY? || m.IndY? || m.IndLongY? || m.AbsY? || m.StackRelY?
  }

  predicate UsesDirectPage(m: Mode) {
    m.Dp? || m.DpX? || m.DpY? || m.Ind? || m.IndX? || m.IndY? || m.IndLong? || m.IndLongY?
  }

  predicate UsesDataBank(m: Mode) {
    m.Ind? || m.IndX? || m.IndY? || m.Abs? || m.AbsX? || m.AbsY? || m.StackRelY?
  }

  predicate UsesStack(m: Mode) {
    m.StackRel? || m.StackRelY?
  }

  predicate SameMemory(s: State, u: State) {
    u.pc == s.pc && u.pbr == s.pbr && u.ram == s.ram && u.emul == s.emul
  }

  lemma SameBytes(s: State, u: State)
    requires SameMemory(s, u)
    ensures u.Operand(1) == s.Operand(1) && u.Operand(2) == s.Operand(2) && u.Operand(3) == s.Operand(3)
  {
  }

  lemma SamePointers(s: State, u: State, offset: nat, at: nat)
    requires SameMemory(s, u)
    ensures u.dpr == s.dpr ==>
              DirectAddress(u, offset) == DirectAddress(s, offset) &&
                DirectPointer(u, offset) == DirectPointer(s, offset)
    ensures LongPointer(u, at) == LongPointer(s, at) && Bank0(u, at) == Bank0(s, at)
  {
  }

  /** A register that a mode does not use has no part in the address. */
  lemma OnlyUsed(s: State, u: State, m: Mode)
    requires SameMemory(s, u)
    requires UsesX(m) ==> u.x == s.x
    requires UsesY(m) ==> u.y == s.y
    requires UsesDirectPage(m) ==> u.dpr == s.dpr
    requires UsesDataBank(m) ==> u.dbr == s.dbr
    requires UsesStack(m) ==> u.sp == s.sp
    ensures EffectiveAddress(u, m) == EffectiveAddress(s, m)
  {
    hide State.Operand, DirectAddress, DirectPointer, LongPointer, Bank0, SameMemory;
    var v := s.Operand(1);
    SameBytes(s, u);
    SamePointers(s, u, if m.DpX? || m.IndX? then v + s.x else if m.DpY? then v + s.y else v,
                 if m.IndLong? || m.IndLongY? then v + s.dpr else v + s.sp);
    SamePointers(s, u, v, v + s.sp + 1);
  }

  // ----- addresses in the instruction

  /** The bytes after the opcode are those of a number. */
  predicate Operands8(s: State, v: nat) {
    v < 0x100 && s.Operand(1) == v
  }

  predicate Operands16(s: State, v: nat) {
    v < 0x10000 && s.Operand(1) == Lo(v) && s.Operand(2) == Hi(v)
  }

  predicate Operands24(s: State, v: nat) {
    v < ADDRESSES && s.Operand(1) == Lo(v) && s.Operand(2) == Hi(v) && s.Operand(3) == v / 0x10000
  }

  /** The modes with an address in the instruction, and an index that carries into the bank. */
  lemma Absolutes(s: State, v: nat)
    ensures Operands16(s, v) ==>
              && EffectiveAddress(s, Abs) == v + 0x10000 * s.dbr
              && EffectiveAddress(s, AbsX) == (v + 0x10000 * s.dbr + s.x) % ADDRESSES
              && EffectiveAddress(s, AbsY) == (v + 0x10000 * s.dbr + s.y) % ADDRESSES
    ensures Operands24(s, v) ==>
              && EffectiveAddress(s, AbsLong) == v
              && EffectiveAddress(s, AbsLongX) == (v + s.x) % ADDRESSES
  {
    WordParts(v);
  }

  lemma WordParts(v: nat)
    ensures v < 0x10000 ==> v == Lo(v) + 0x100 * Hi(v)
    ensures v == Lo(v) + 0x100 * Hi(v) + 0x10000 * (v / 0x10000)
  {
  }

  // ----- the direct page and the stack

  /** In emulation mode a page that is aligned is never left; otherwise the sum wraps in bank 0. */
  function InDirectPage(s: State, offset: nat): Word {
    if s.emul && s.dpr % 0x100 == 0 then s.dpr / 0x100 * 0x100 + offset % 0x100 else (s.dpr + offset) % 0x10000
  }

  lemma DirectModes(s: State, v: nat)
    requires Operands8(s, v)
    ensures EffectiveAddress(s, Dp) == InDirectPage(s, v) == (s.dpr + v) % 0x10000
    ensures EffectiveAddress(s, DpX) == InDirectPage(s, v + s.x)
    ensures EffectiveAddress(s, DpY) == InDirectPage(s, v + s.y)
    ensures EffectiveAddress(s, StackRel) == (s.sp + v) % 0x10000
  {
  }

  // ----- through a pointer

  /** Two bytes in bank 0 are those of p, three those of a long pointer. */
  predicate Holds16(s: State, low: nat, high: nat, p: nat)
    requires low < 0x10000 && high < 0x10000
  {
    p < 0x10000 && s.ram[low] == Lo(p) && s.ram[high] == Hi(p)
  }

  predicate Holds24(s: State, at: nat, p: nat) {
    p < ADDRESSES && s.ram[at % 0x10000] == Lo(p) && s.ram[(at + 1) % 0x10000] == Hi(p) &&
    s.ram[(at + 2) % 0x10000] == p / 0x10000
  }

  lemma PointerIs(s: State, offset: nat, p: nat)
    requires Holds16(s, InDirectPage(s, offset), InDirectPage(s, offset + 1), p)
    ensures DirectPointer(s, offset) == p
  {
    WordParts(p);
    assert DirectAddress(s, offset) == InDirectPage(s, offset);
    assert DirectAddress(s, offset + 1) == InDirectPage(s, offset + 1);
    hide Lo, Hi, DirectAddress, InDirectPage;
  }

  lemma LongPointerIs(s: State, at: nat, p: nat)
    requires Holds24(s, at, p)
    ensures LongPointer(s, at) == p
  {
    WordParts(p);
    hide Lo, Hi;
  }

  lemma Wraps(a: int, y: int)
    ensures (a % ADDRESSES + y) % ADDRESSES == (a + y) % ADDRESSES
  {
  }

  /** A pointer in the direct page leads into the data bank, and Y goes on from there. */
  lemma ThroughDirectPage(s: State, v: nat, p: nat)
    requires Operands8(s, v)
    ensures Holds16(s, InDirectPage(s, v), InDirectPage(s, v + 1), p) ==>
              && EffectiveAddress(s, Ind) == p + 0x10000 * s.dbr
              && EffectiveAddress(s, IndY) == (p + 0x10000 * s.dbr + s.y) % ADDRESSES
    ensures Holds16(s, InDirectPage(s, v + s.x), InDirectPage(s, v + s.x + 1), p) ==>
              EffectiveAddress(s, IndX) == p + 0x10000 * s.dbr
  {
    hide Holds16, InDirectPage, DirectPointer;
    if Holds16(s, InDirectPage(s, v), InDirectPage(s, v + 1), p) {
      PointerIs(s, v, p);
    }
    if Holds16(s, InDirectPage(s, v + s.x), InDirectPage(s, v + s.x + 1), p) {
      PointerIs(s, v + s.x, p);
    }
  }

  /** A long pointer says the bank itself. */
  lemma ThroughLongPointer(s: State, v: nat, p: nat)
    requires Operands8(s, v) && Holds24(s, s.dpr + v, p)
    ensures EffectiveAddress(s, IndLong) == p && EffectiveAddress(s, IndLongY) == (p + s.y) % ADDRESSES
  {
    hide Holds24, LongPointer;
    LongPointerIs(s, s.dpr + v, p);
  }

  /** A pointer on the stack. */
  lemma ThroughStack(s: State, v: nat, p: nat)
    requires Operands8(s, v) && Holds16(s, (s.sp + v) % 0x10000, (s.sp + v + 1) % 0x10000, p)
    ensures EffectiveAddress(s, StackRelY) == (p + 0x10000 * s.dbr + s.y) % ADDRESSES
  {
    WordParts(p);
  }

  lemma StackIndexMoves(s: State)
    ensures EffectiveAddress(s, StackRelY) == (EffectiveAddress(s.(y := 0), StackRelY) + s.y) % ADDRESSES
  {
    hide State.Operand, Bank0;
    var u, at := s.(y := 0), s.Operand(1) + s.sp;
    SameBytes(s, u);
    SamePointers(s, u, 0, at);
    SamePointers(s, u, 0, at + 1);
    Wraps(Bank0(s, at) + 0x100 * Bank0(s, at + 1) + 0x10000 * s.dbr, s.y);
  }

  /** An indexed mode is the mode without the index, and then as many bytes on. */
  lemma IndexMoves(s: State)
    ensures EffectiveAddress(s, IndY) == (EffectiveAddress(s, Ind) + s.y) % ADDRESSES
    ensures EffectiveAddress(s, IndLongY) == (EffectiveAddress(s, IndLong) + s.y) % ADDRESSES
    ensures EffectiveAddress(s, AbsX) == (EffectiveAddress(s, Abs) + s.x) % ADDRESSES
    ensures EffectiveAddress(s, AbsY) == (EffectiveAddress(s, Abs) + s.y) % ADDRESSES
    ensures EffectiveAddress(s, AbsLongX) == (EffectiveAddress(s, AbsLong) + s.x) % ADDRESSES
    ensures EffectiveAddress(s, StackRelY) == (EffectiveAddress(s.(y := 0), StackRelY) + s.y) % ADDRESSES
  {
    StackIndexMoves(s);
    hide State.Operand, DirectPointer, LongPointer, Bank0, DirectAddress;
  }
}
