/** The emulator's global registers and its RAM, changed step by step the way the macros of
    emulator/65816core.c do it. Every method is tied to the value-level meaning in Instructions. */
module CpuCore {
  import opened Primitives
  import opened Machine
  import opened Instructions
  import opened Opcodes
  import opened Access
  import opened Modes

  /** The 8-bit decimal addition, digit by digit. */
  method DecimalSumByte(a: Byte, value: Byte, carry: int) returns (sum: Sum)
    requires 0 <= carry <= 1
    ensures sum == Adc8(a, value, carry, true)
  {
    var tmp2 := a % 0x10 + value % 0x10 + carry;
    var tmp: nat := (a - a % 0x10) + (value - value % 0x10);
    if tmp2 > 9 {
      tmp2 := tmp2 + 6;
      tmp := tmp + 0x10;
    }
    tmp := tmp + tmp2 % 0x10;
    var overflow := Overflows(a, value, tmp, 0x80);
    if tmp > 0x9f {
      tmp := tmp + 0x60;
    }
    sum := Sum(tmp, tmp > 0xff, overflow);
  }

  method DecimalSumWord(c: Word, value: Word, carry: int) returns (sum: Sum)
    requires 0 <= carry <= 1
    ensures sum == Adc16(c, value, carry, true)
  {
    var tmp2: nat := c % 0x10 + value % 0x10 + carry;
    var tmp: nat := c / 0x10 % 0x10 * 0x10 + value / 0x10 % 0x10 * 0x10;
    if tmp2 > 9 {
      tmp2 := tmp2 + 6;
      tmp := tmp + 0x10;
    }
    tmp := tmp + tmp2 % 0x10;
    assert tmp == TensSum(c, value, carry);
    tmp2 := c / 0x100 % 0x10 * 0x100 + value / 0x100 % 0x10 * 0x100;
    if tmp > 0x9f {
      tmp := tmp + 0x60;
      tmp2 := tmp2 + 0x100;
    }
    tmp2 := tmp2 + tmp % 0x100;
    assert tmp2 == HundredsSum(c, value, TensSum(c, value, carry));
    tmp := c / 0x1000 * 0x1000 + value / 0x1000 * 0x1000;
    if tmp2 > 0x9ff {
      tmp2 := tmp2 + 0x600;
      tmp := tmp + 0x1000;
    }
    tmp := tmp + tmp2 % 0x1000;
    assert tmp == ThousandsSum(c, value, HundredsSum(c, value, TensSum(c, value, carry)));
    var overflow := Overflows(c % 0x100, value, tmp, 0x8000);
    if tmp > 0x9fff {
      tmp := tmp + 0x6000;
    }
    sum := Sum(tmp, tmp > 0xffff, overflow);
  }

  /** How the code writes a column of a subtraction. */
  lemma LowColumnCode(s: int)
    ensures Column(s, 1) == (if s < 0x10 then s - 6 else s) % 0x10
  {
  }

  lemma HighColumnCode(s: int, unit: nat)
    requires unit > 0
    ensures Column(s, unit) == (if s < 0x10 * unit then s - 6 * unit else s) / unit % 0x10 * unit
  {
  }

  /** SBC's sums of minuend and complement, column by column. */
  method DecimalDifferenceByte(a: Byte, value: Byte, carry: int) returns (sum: Sum)
    requires 0 <= carry <= 1
    ensures sum == Sbc8(a, value, carry, true)
  {
    hide Column, Underflows;
    ghost var s0, s1 := a % 0x10 + (0xf - value % 0x10) + carry, a + (0xff - value) + carry;
    LowColumnCode(s0);
    HighColumnCode(s1, 0x10);
    var overflow := Underflows(a, value, carry + (0xff - value) + a, 0x80);
    var tmp2 := a % 0x10 + (0xf - value % 0x10) + carry;
    var tmp := (if tmp2 < 0x10 then tmp2 - 6 else tmp2) % 0x10;
    tmp2 := a + (0xff - value) + carry;
    tmp := tmp + (if tmp2 < 0x100 then tmp2 - 0x60 else tmp2) / 0x10 % 0x10 * 0x10;
    sum := Sum(tmp, tmp2 > 0xff, overflow);
  }

  method DecimalDifferenceWord(c: Word, value: Word, carry: int) returns (sum: Sum)
    requires 0 <= carry <= 1
    ensures sum == Sbc16(c, value, carry, true)
  {
    hide Column, Underflows;
    var a: Byte := c % 0x100;
    LowColumnCode(a % 0x10 + (0xf - value % 0x10) + carry);
    HighColumnCode(a + (0xff - value % 0x100) + carry, 0x10);
    HighColumnCode(a + (0xfff - value % 0x1000) + carry, 0x100);
    HighColumnCode(a + (0xffff - value) + carry, 0x1000);
    var overflow := Underflows(c, value, carry + (0xffff - value) + c, 0x8000);
    var tmp2 := a % 0x10 + (0xf - value % 0x10) + carry;
    var tmp := (if tmp2 < 0x10 then tmp2 - 6 else tmp2) % 0x10;
    tmp2 := a + (0xff - value % 0x100) + carry;
    tmp := tmp + (if tmp2 < 0x100 then tmp2 - 0x60 else tmp2) / 0x10 % 0x10 * 0x10;
    tmp2 := a + (0xfff - value % 0x1000) + carry;
    tmp := tmp + (if tmp2 < 0x1000 then tmp2 - 0x600 else tmp2) / 0x100 % 0x10 * 0x100;
    tmp2 := a + (0xffff - value) + carry;
    tmp := tmp + (if tmp2 < 0x10000 then tmp2 - 0x6000 else tmp2) / 0x1000 % 0x10 * 0x1000;
    sum := Sum(tmp, tmp2 > 0xffff, overflow);
  }

  /** Read-modify-write instructions exist for four addressing modes and the accumulator. */
  predicate Modifiable(target: Target) {
    target.Cell? ==> target.mode.Dp? || target.mode.DpX? || target.mode.Abs? || target.mode.AbsX?
  }

  predicate Implemented(i: Instr) {
    i.Rmw? ==> Modifiable(i.target)
  }

  lemma DecodeImplemented(opcode: Byte)
    ensures Implemented(Decode(opcode))
  {
  }

  lemma IndexBitSet(p: bv8, bits: bv8)
    ensures bits & P_X != 0 ==> StatusBits(p, bits, true, false) & P_X != 0
  {
  }

  class Cpu {
    const ram: array<Byte>
    var c: Word
    var x: Word
    var y: Word
    var pbr: Byte
    var dbr: Byte
    var dpr: Word
    var p: bv8
    var sp: Word
    var n: Byte
    var z: Byte
    var emul: bool
    var pc: nat

    ghost predicate Valid() {
      ram.Length == RAMSIZE
    }

    ghost function S(): State
      reads this, ram
      requires Valid()
    {
      State(c, x, y, pbr, dbr, dpr, p, sp, n, z, emul, pc, ram[..])
    }

    constructor (memory: array<Byte>)
      requires memory.Length == RAMSIZE
      ensures Valid() && ram == memory && S() == PowerOn(memory[..])
    {
      ram := memory;
      c, x, y, pbr, dbr, dpr, p, sp, n, z, emul, pc := 0, 0, 0, 0, 0, 0, 0, 0x100, 0, 0, true, 0;
    }

    // ----- memory

    method LoadLong(addr: nat) returns (b: Byte)
      requires Valid()
      ensures b == S().Load(addr)
    {
      b := ram[addr % RAMSIZE];
    }

    method StoreLong(addr: nat, v: int)
      requires Valid()
      modifies ram
      ensures S() == old(S()).Store(addr, v)
    {
      ram[addr % RAMSIZE] := v % 0x100;
      assert ram[..] == old(ram[..])[addr % RAMSIZE := Lo(v)];
    }

    method LoadBank0(addr: nat) returns (b: Byte)
      requires Valid()
      ensures b == S().Load(addr % 0x10000)
    {
      b := LoadLong(addr % 0x10000);
    }

    method FetchParam(at: nat) returns (b: Byte)
      requires Valid()
      ensures b == S().Fetch(at)
    {
      b := LoadLong(if at < 0x10000 then at + 0x10000 * pbr
                    else at % 0x10000 + 0x10000 * if pbr % 2 == 0 then pbr + 1 else pbr);
    }

    method IncPc(count: nat)
      requires Valid()
      modifies this`pc
      ensures S() == old(S()).Skip(count)
    {
      pc := (pc + count) % 0x10000;
    }

    /** Step to the next byte of the instruction and fetch it. */
    method NextParam(ghost s: State, ghost i: nat) returns (b: Byte)
      requires Valid() && S() == if i == 0 then s else s.Skip(i)
      modifies this`pc
      ensures S() == s.Skip(i + 1) && b == s.Operand(i + 1)
    {
      IncPc(1);
      SkipTwice(s, i, 1);
      b := FetchParam(pc);
    }

    method Push(v: int)
      requires Valid()
      modifies this`sp, ram
      ensures S() == old(S()).Push(v)
    {
      StoreLong(sp, v);
      sp := if emul then 0x100 + (sp - 1) % 0x100 else (sp - 1) % 0x10000;
    }

    method Pull() returns (b: Byte)
      requires Valid()
      modifies this`sp
      ensures S() == old(S()).Pulled() && b == old(S()).Top()
    {
      sp := if emul then 0x100 + (sp + 1) % 0x100 else (sp + 1) % 0x10000;
      b := LoadLong(sp);
    }

    // ----- the tail of every addressing macro

    /** STORE_BANK0 or LOAD_BANK0 of one byte or two. */
    method AccessBank0(ea: nat, value: int, bits8: bool, write: bool, ghost m: Mode) returns (v: Word)
      requires Valid() && InBank0(m)
      modifies ram
      ensures Accessed(old(S()), S(), m, ea % 0x10000, value, bits8, write, v)
    {
      v := 0;
      Bank0Next(ea);
      if write {
        StoreLong(ea % 0x10000, value);
        if !bits8 {
          StoreLong((ea + 1) % 0x10000, value / 0x100);
        }
      } else {
        v := LoadBank0(ea);
        if !bits8 {
          var high := LoadBank0(ea + 1);
          v := v + 0x100 * (high as int);
        }
      }
    }

    method AccessLong(ea: nat, value: int, bits8: bool, write: bool, ghost m: Mode) returns (v: Word)
      requires Valid() && !InBank0(m)
      modifies ram
      ensures Accessed(old(S()), S(), m, ea, value, bits8, write, v)
    {
      v := 0;
      if write {
        StoreLong(ea, value);
        if !bits8 {
          StoreLong((ea + 1) % 0x1000000, value / 0x100);
        }
      } else {
        v := LoadLong(ea);
        if !bits8 {
          var high := LoadLong((ea + 1) % 0x1000000);
          v := v + 0x100 * (high as int);
        }
      }
    }

    // ----- addressing macros: p1 to p3 fetched, the address formed, one byte or two moved

    /** A one-byte operand, stepped over. */
    method ByteParam() returns (p1: Byte)
      requires Valid()
      modifies this`pc
      ensures S() == old(S()).Skip(2) && p1 == old(S()).Operand(1)
    {
      p1 := NextParam(S(), 0);
      IncPc(1);
      SkipTwice(old(S()), 1, 1);
    }

    method DirectPage(value: int, bits8: bool, write: bool) returns (v: Word)
      requires Valid()
      modifies this`pc, ram
      ensures Accessed(old(S()).Skip(2), S(), Dp, EffectiveAddress(old(S()), Dp), value, bits8, write, v)
    {
      ghost var s := S();
      var p1 := ByteParam();
      DirectCode(s, p1);
      assert (p1 + dpr) % 0x10000 == EffectiveAddress(s, Dp);
      v := AccessBank0(p1 + dpr, value, bits8, write, Dp);
    }

    method DirectPageIndexed(value: int, bits8: bool, r: Word, write: bool, ghost m: Mode) returns (v: Word)
      requires Valid() && (emul ==> bits8) && ((m.DpX? && r == x) || (m.DpY? && r == y))
      modifies this`pc, ram
      ensures Accessed(old(S()).Skip(2), S(), m, EffectiveAddress(old(S()), m), value, bits8, write, v)
    {
      ghost var s := S();
      var p1 := ByteParam();
      DirectCode(s, p1 + r);
      if emul {
        var ea := if dpr % 0x100 != 0 then p1 + r + dpr else (p1 + r) % 0x100 + dpr;
        assert ea % 0x10000 == EffectiveAddress(s, m);
        v := AccessBank0(ea, value, true, write, m);
      } else {
        assert (p1 + dpr + r) % 0x10000 == EffectiveAddress(s, m);
        v := AccessBank0(p1 + dpr + r, value, bits8, write, m);
      }
    }

    /** The two bytes of a pointer and the data bank in one address. */
    function DataAddress(low: Byte, high: Byte): nat
      reads this`dbr
    {
      low + 0x100 * (high as int) + 0x10000 * (dbr as int)
    }

    method IndirectPointer(p1: Byte) returns (low: Byte, high: Byte)
      requires Valid()
      ensures low + 0x100 * (high as int) == DirectPointer(S(), p1)
    {
      DirectCode(S(), p1);
      DirectCode(S(), p1 + 1);
      low := LoadBank0(p1 + dpr);
      if !emul || dpr % 0x100 != 0 || p1 != 0xff {
        high := LoadBank0(p1 + dpr + 1);
      } else {
        high := LoadLong(dpr);
      }
    }

    method Indirect(value: int, bits8: bool, write: bool) returns (v: Word)
      requires Valid() && (emul ==> bits8)
      modifies this`pc, ram
      ensures Accessed(old(S()).Skip(2), S(), Ind, EffectiveAddress(old(S()), Ind), value, bits8, write, v)
    {
      ghost var s := S();
      var p1 := ByteParam();
      var low, high := IndirectPointer(p1);
      assert DataAddress(low, high) == EffectiveAddress(s, Ind);
      v := AccessLong(DataAddress(low, high), value, bits8, write, Ind);
    }

    method IndirectXPointer(p1: Byte) returns (low: Byte, high: Byte)
      requires Valid()
      ensures low + 0x100 * (high as int) == DirectPointer(S(), p1 + x)
    {
      DirectCode(S(), p1 + x);
      DirectCode(S(), p1 + x + 1);
      if !emul || dpr % 0x100 != 0 {
        low := LoadBank0(p1 + x + dpr);
        high := LoadBank0(p1 + x + dpr + 1);
      } else {
        low := LoadLong((p1 + x) % 0x100 + dpr);
        high := LoadLong((p1 + x + 1) % 0x100 + dpr);
      }
      assert low == S().Load(DirectAddress(S(), p1 + x)) && high == S().Load(DirectAddress(S(), p1 + x + 1));
    }

    method IndirectX(value: int, bits8: bool, write: bool) returns (v: Word)
      requires Valid() && (emul ==> bits8)
      modifies this`pc, ram
      ensures Accessed(old(S()).Skip(2), S(), IndX, EffectiveAddress(old(S()), IndX), value, bits8, write, v)
    {
      ghost var s := S();
      var p1 := ByteParam();
      var low, high := IndirectXPointer(p1);
      assert DataAddress(low, high) == EffectiveAddress(s, IndX);
      v := AccessLong(DataAddress(low, high), value, bits8, write, IndX);
    }

    /** The write, the page-crossing read and the plain read form the address differently. */
    method IndirectY(value: int, bits8: bool, write: bool) returns (v: Word)
      requires Valid() && (emul ==> bits8)
      modifies this`pc, ram
      ensures Accessed(old(S()).Skip(2), S(), IndY, EffectiveAddress(old(S()), IndY), value, bits8, write, v)
    {
      hide DirectPointer;
      ghost var s := S();
      var p1 := ByteParam();
      PointerSkip(s, p1, 2);
      var low, high := IndirectPointer(p1);
      var ea;
      if write {
        var ea2 := 0x100 * (high as int) + 0x10000 * (dbr as int);
        ea := (low + ea2 + y) % 0x1000000;
      } else {
        ea := low + 0x100 * (high as int);
        ea := (ea + y + 0x10000 * (dbr as int)) % 0x1000000;
      }
      assert ea == EffectiveAddress(s, IndY);
      v := AccessLong(ea, value, bits8, write, IndY);
    }

    /** The three bytes of a long pointer. */
    method LongPointerAt(ea2: nat) returns (ea: nat)
      requires Valid()
      ensures ea == LongPointer(S(), ea2)
    {
      var low := LoadBank0(ea2);
      var high := LoadBank0(ea2 + 1);
      var bank := LoadBank0(ea2 + 2);
      ea := low + 0x100 * (high as int) + 0x10000 * (bank as int);
    }

    method IndirectLong(value: int, bits8: bool, write: bool) returns (v: Word)
      requires Valid()
      modifies this`pc, ram
      ensures Accessed(old(S()).Skip(2), S(), IndLong, EffectiveAddress(old(S()), IndLong), value, bits8, write, v)
    {
      ghost var s := S();
      var p1 := ByteParam();
      var ea := LongPointerAt(p1 + dpr);
      assert ea == EffectiveAddress(s, IndLong);
      v := AccessLong(ea, value, bits8, write, IndLong);
    }

    method IndirectLongY(value: int, bits8: bool, write: bool) returns (v: Word)
      requires Valid()
      modifies this`pc, ram
      ensures Accessed(old(S()).Skip(2), S(), IndLongY, EffectiveAddress(old(S()), IndLongY), value, bits8, write, v)
    {
      ghost var s := S();
      var p1 := ByteParam();
      var ea := LongPointerAt(p1 + dpr);
      assert (ea + y) % 0x1000000 == EffectiveAddress(s, IndLongY);
      v := AccessLong((ea + y) % 0x1000000, value, bits8, write, IndLongY);
    }

    /** A two-byte operand, stepped over. */
    method WordParam() returns (p1: Byte, p2: Byte)
      requires Valid()
      modifies this`pc
      ensures S() == old(S()).Skip(3) && p1 == old(S()).Operand(1) && p2 == old(S()).Operand(2)
    {
      p1 := NextParam(S(), 0);
      p2 := NextParam(old(S()), 1);
      IncPc(1);
      SkipTwice(old(S()), 2, 1);
    }

    method LongParam() returns (p1: Byte, p2: Byte, p3: Byte)
      requires Valid()
      modifies this`pc
      ensures S() == old(S()).Skip(4) && p1 == old(S()).Operand(1) && p2 == old(S()).Operand(2) &&
              p3 == old(S()).Operand(3)
    {
      p1 := NextParam(S(), 0);
      p2 := NextParam(old(S()), 1);
      p3 := NextParam(old(S()), 2);
      IncPc(1);
      SkipTwice(old(S()), 3, 1);
    }

    method Absolute(value: int, bits8: bool, write: bool) returns (v: Word)
      requires Valid()
      modifies this`pc, ram
      ensures Accessed(old(S()).Skip(3), S(), Abs, EffectiveAddress(old(S()), Abs), value, bits8, write, v)
    {
      ghost var s := S();
      var p1, p2 := WordParam();
      assert DataAddress(p1, p2) == EffectiveAddress(s, Abs);
      v := AccessLong(DataAddress(p1, p2), value, bits8, write, Abs);
    }

    /** The plain read adds everything at once; writes and page-crossing reads add the index to the page base. */
    method AbsoluteIndexed(value: int, bits8: bool, r: Word, write: bool, ghost m: Mode) returns (v: Word)
      requires Valid() && ((m.AbsX? && r == x) || (m.AbsY? && r == y))
      modifies this`pc, ram
      ensures Accessed(old(S()).Skip(3), S(), m, EffectiveAddress(old(S()), m), value, bits8, write, v)
    {
      ghost var s := S();
      var p1, p2 := WordParam();
      var ea;
      if !write && bits8 && (emul || p & P_X != 0) && p1 + r <= 0xff {
        ea := (p1 + 0x100 * (p2 as int) + r + 0x10000 * (dbr as int)) % 0x1000000;
      } else {
        ea := 0x100 * (p2 as int) + 0x10000 * (dbr as int);
        ea := (p1 + r + ea) % 0x1000000;
      }
      assert ea == EffectiveAddress(s, m);
      v := AccessLong(ea, value, bits8, write, m);
    }

    method AbsoluteLong(value: int, bits8: bool, write: bool) returns (v: Word)
      requires Valid()
      modifies this`pc, ram
      ensures Accessed(old(S()).Skip(4), S(), AbsLong, EffectiveAddress(old(S()), AbsLong), value, bits8, write, v)
    {
      ghost var s := S();
      var p1, p2, p3 := LongParam();
      var ea := p1 + 0x100 * (p2 as int) + 0x10000 * (p3 as int);
      assert ea == EffectiveAddress(s, AbsLong);
      v := AccessLong(ea, value, bits8, write, AbsLong);
    }

    method AbsoluteLongX(value: int, bits8: bool, write: bool) returns (v: Word)
      requires Valid()
      modifies this`pc, ram
      ensures Accessed(old(S()).Skip(4), S(), AbsLongX, EffectiveAddress(old(S()), AbsLongX), value, bits8, write, v)
    {
      ghost var s := S();
      var p1, p2, p3 := LongParam();
      var ea := (p1 + 0x100 * (p2 as int) + 0x10000 * (p3 as int) + x) % 0x1000000;
      assert ea == EffectiveAddress(s, AbsLongX);
      v := AccessLong(ea, value, bits8, write, AbsLongX);
    }

    method StackRelative(value: int, bits8: bool, write: bool) returns (v: Word)
      requires Valid()
      modifies this`pc, ram
      ensures Accessed(old(S()).Skip(2), S(), StackRel, EffectiveAddress(old(S()), StackRel), value, bits8, write, v)
    {
      ghost var s := S();
      var p1 := ByteParam();
      assert (p1 + sp) % 0x10000 == EffectiveAddress(s, StackRel);
      v := AccessBank0(p1 + sp, value, bits8, write, StackRel);
    }

    method StackRelativeY(value: int, bits8: bool, write: bool) returns (v: Word)
      requires Valid()
      modifies this`pc, ram
      ensures Accessed(old(S()).Skip(2), S(), StackRelY, EffectiveAddress(old(S()), StackRelY), value, bits8, write, v)
    {
      ghost var s := S();
      var p1 := ByteParam();
      var low := LoadBank0(p1 + sp);
      var high := LoadBank0(p1 + sp + 1);
      var ea := (low + 0x100 * (high as int) + y + 0x10000 * (dbr as int)) % 0x1000000;
      assert ea == EffectiveAddress(s, StackRelY);
      v := AccessLong(ea, value, bits8, write, StackRelY);
    }

    /** The # operand, one byte or two. */
    method Immediate(bits8: bool) returns (v: Word)
      requires Valid()
      modifies this`pc
      ensures S() == old(S()).Skip(SourceLength(Imm, bits8)) && v == ReadSource(old(S()), Imm, bits8)
    {
      if bits8 {
        v := ByteParam();
      } else {
        var p1, p2 := WordParam();
        v := p1 + 0x100 * (p2 as int);
      }
    }

    /** The load or store an addressing mode stands for. */
    method AccessMode(m: Mode, value: int, bits8: bool, write: bool) returns (v: Word)
      requires Valid() && (emul ==> bits8)
      modifies this`pc, ram
      ensures Accessed(old(S()).Skip(Length(m)), S(), m, EffectiveAddress(old(S()), m), value, bits8, write, v)
    {
      match m
      case Dp => v := DirectPage(value, bits8, write);
      case DpX => v := DirectPageIndexed(value, bits8, x, write, m);
      case DpY => v := DirectPageIndexed(value, bits8, y, write, m);
      case Ind => v := Indirect(value, bits8, write);
      case IndX => v := IndirectX(value, bits8, write);
      case IndY => v := IndirectY(value, bits8, write);
      case IndLong => v := IndirectLong(value, bits8, write);
      case IndLongY => v := IndirectLongY(value, bits8, write);
      case Abs => v := Absolute(value, bits8, write);
      case AbsX => v := AbsoluteIndexed(value, bits8, x, write, m);
      case AbsY => v := AbsoluteIndexed(value, bits8, y, write, m);
      case AbsLong => v := AbsoluteLong(value, bits8, write);
      case AbsLongX => v := AbsoluteLongX(value, bits8, write);
      case StackRel => v := StackRelative(value, bits8, write);
      case StackRelY => v := StackRelativeY(value, bits8, write);
    }

    method LoadSource(from: Source, bits8: bool) returns (v: Word)
      requires Valid() && (emul ==> bits8)
      modifies this`pc, ram
      ensures S() == old(S()).Skip(SourceLength(from, bits8)) && v == ReadSource(old(S()), from, bits8)
    {
      match from
      case Imm => v := Immediate(bits8);
      case Mem(m) =>
        ghost var s := S();
        v := AccessMode(m, 0, bits8, false);
        ReadSkip(s, m, EffectiveAddress(s, m), bits8, Length(m));
    }

    method StoreMode(m: Mode, value: int, bits8: bool)
      requires Valid() && (emul ==> bits8)
      modifies this`pc, ram
      ensures S() == WriteAt(old(S()), m, EffectiveAddress(old(S()), m), value, bits8).Skip(Length(m))
    {
      ghost var s := S();
      var v := AccessMode(m, value, bits8, true);
      WriteSkip(s, m, EffectiveAddress(s, m), value, bits8, Length(m));
    }

    // ----- read-modify-write: the address stays on the byte read last

    /** The second half of the load: write back in emulation mode, the high byte otherwise. */
    method ReadBack(ea: nat, bits8: bool, bank0: bool, ghost m: Mode) returns (v: Word, last: nat)
      requires Valid() && (emul ==> bits8) && bank0 == InBank0(m)
      modifies ram
      ensures S() == old(S()) && v == ReadAt(S(), m, ea, bits8) && last == LastByte(m, ea, bits8)
    {
      v := LoadLong(ea);
      last := ea;
      StoreBack(S(), ea);
      if emul {
        StoreLong(ea, v);
      } else if !bits8 {
        last := (ea + 1) % if bank0 then 0x10000 else 0x1000000;
        var high := LoadLong(last);
        v := v + 0x100 * (high as int);
      }
    }

    method LoadRrw(m: Mode, bits8: bool) returns (v: Word, last: nat)
      requires Valid() && (emul ==> bits8) && (m.Dp? || m.DpX? || m.Abs? || m.AbsX?)
      modifies this`pc, ram
      ensures S() == old(S()).Skip(Length(m)) && v == ReadAt(old(S()), m, EffectiveAddress(old(S()), m), bits8)
      ensures last == LastByte(m, EffectiveAddress(old(S()), m), bits8)
    {
      ghost var s := S();
      var ea;
      if m.Dp? || m.DpX? {
        var p1 := ByteParam();
        DirectCode(s, p1);
        if m.DpX? {
          ea := DirectXRrw(p1);
        } else {
          ea := (p1 + dpr) % 0x10000;
        }
      } else {
        var p1, p2 := WordParam();
        ea := if m.AbsX? then (DataAddress(p1, p2) + x) % 0x1000000 else DataAddress(p1, p2);
      }
      assert ea == EffectiveAddress(s, m);
      v, last := ReadBack(ea, bits8, m.Dp? || m.DpX?, m);
      ReadSkip(s, m, ea, bits8, Length(m));
    }

    method DirectXRrw(p1: Byte) returns (ea: Word)
      requires Valid()
      ensures ea == DirectAddress(S(), p1 + x)
    {
      DirectCode(S(), p1 + x);
      if !emul {
        ea := (p1 + dpr + x) % 0x10000;
      } else if dpr % 0x100 != 0 {
        ea := (p1 + x + dpr) % 0x10000;
      } else {
        ea := (p1 + x) % 0x100 + dpr;
      }
    }

    /** The high byte goes out first. */
    method StoreRrw(m: Mode, last: nat, value: int, bits8: bool, ghost ea: nat)
      requires Valid() && ea < 0x1000000 && (InBank0(m) ==> ea < 0x10000) && last == LastByte(m, ea, bits8)
      modifies ram
      ensures S() == WriteAt(old(S()), m, ea, value, bits8)
    {
      if bits8 {
        StoreLong(last, value);
      } else {
        StepBack(m, ea);
        HighFirst(S(), m, ea, value);
        StoreLong(last, value / 0x100);
        StoreLong((last - 1) % if m.Dp? || m.DpX? || m.DpY? || m.StackRel? then 0x10000 else 0x1000000, value);
      }
    }

    // ----- flags and accumulator

    method SetFlag(mask: bv8, on: bool)
      requires Valid()
      modifies this`p
      ensures S() == old(S()).Flag(mask, on)
    {
      if on {
        p := p | mask;
      } else {
        p := p & !mask;
      }
    }

    /** N takes the top byte; Z all the bits of the width. */
    method SetNz(v: int, bits8: bool)
      requires Valid()
      modifies this`n, this`z
      ensures S() == old(S()).SetNZ(v, bits8)
    {
      if bits8 {
        n, z := Lo(v), Lo(v);
      } else {
        n, z := Hi(v), Lo(BitOr(Lo(v), Hi(v)));
      }
    }

    method SetAccumulator(v: int, bits8: bool)
      requires Valid()
      modifies this`c
      ensures S() == old(S()).SetAcc(v, bits8)
    {
      if bits8 {
        c := c - c % 0x100 + v % 0x100;
      } else {
        c := v % 0x10000;
      }
    }

    method SetSumFlags(sum: Sum, bits8: bool)
      requires Valid()
      modifies this`p, this`n, this`z, this`c
      ensures S() == SetSum(old(S()), sum, bits8)
    {
      SetFlag(P_OVERFLOW, sum.overflow);
      SetFlag(P_CARRY, sum.carry);
      SetNz(sum.value, bits8);
      SetAccumulator(sum.value, bits8);
    }

    // ----- the accumulator

    predicate M8()
      reads this`emul, this`p
    {
      emul || p & P_M != 0
    }

    predicate X8()
      reads this`emul, this`p
    {
      emul || p & P_X != 0
    }

    method Add(value: Word, bits8: bool)
      requires Valid() && (bits8 ==> value < 0x100)
      modifies this`p, this`n, this`z, this`c
      ensures S() == SetSum(old(S()), AdcSum(old(S()), value, bits8), bits8)
    {
      var carry := if p & P_CARRY != 0 then 1 else 0;
      var sum;
      if p & P_DECIMAL != 0 {
        if bits8 {
          sum := DecimalSumByte(c % 0x100, value, carry);
        } else {
          sum := DecimalSumWord(c, value, carry);
        }
      } else {
        sum := if bits8 then Adc8(c % 0x100, value, carry, false) else Adc16(c, value, carry, false);
      }
      assert sum == AdcSum(S(), value, bits8);
      SetSumFlags(sum, bits8);
    }

    method Subtract(value: Word, bits8: bool)
      requires Valid() && (bits8 ==> value < 0x100)
      modifies this`p, this`n, this`z, this`c
      ensures S() == SetSum(old(S()), SbcSum(old(S()), value, bits8), bits8)
    {
      var carry := if p & P_CARRY != 0 then 1 else 0;
      var sum;
      if p & P_DECIMAL != 0 {
        if bits8 {
          sum := DecimalDifferenceByte(c % 0x100, value, carry);
        } else {
          sum := DecimalDifferenceWord(c, value, carry);
        }
      } else {
        sum := if bits8 then Sbc8(c % 0x100, value, carry, false) else Sbc16(c, value, carry, false);
      }
      assert sum == SbcSum(S(), value, bits8);
      SetSumFlags(sum, bits8);
    }

    /** CMP, CPX and CPY: an unsigned subtraction whose wrap the carry tests for. */
    method CompareWith(r: Word, value: Word, bits8: bool)
      requires Valid()
      modifies this`p, this`n, this`z
      ensures S() == Compare(old(S()), r, value, bits8)
    {
      var tmp := (r - value) % 0x1_0000_0000;
      SetFlag(P_CARRY, tmp < if bits8 then 0x100 else 0x10000);
      SetNz(tmp, bits8);
    }

    /** BIT copies the top two bits of the operand to N and V. */
    method TestTopBits(value: Word, bits8: bool)
      requires Valid()
      modifies this`p, this`n
      ensures S() == TestTop(old(S()), value, if bits8 then 0x80 else 0x8000)
    {
      n := if BitSet(value, if bits8 then 0x80 else 0x8000) then 0x80 else 0;
      SetFlag(P_OVERFLOW, BitSet(value, if bits8 then 0x40 else 0x4000));
    }

    method TestAgainstAccumulator(value: Word, bits8: bool)
      requires Valid()
      modifies this`z
      ensures S() == TestZero(old(S()), value, bits8)
    {
      z := if BitAnd(value, if bits8 then c % 0x100 else c) == 0 then 0 else 1;
    }

    method Logic(value: Word, bits8: bool)
      requires Valid()
      modifies this`n, this`z, this`c
      ensures S() == Logical(old(S()), value, bits8)
    {
      SetAccumulator(value, bits8);
      SetNz(value, bits8);
    }

    method Operate(op: AluOp, value: Word, bits8: bool)
      requires Valid() && (bits8 ==> value < 0x100)
      modifies this`p, this`n, this`z, this`c
      ensures S() == Accumulate(old(S()), op, value, bits8)
    {
      var a := if bits8 then c % 0x100 else c;
      match op
      case Ora => Logic(BitOr(a, value), bits8);
      case And => Logic(BitAnd(a, value), bits8);
      case Eor => Logic(BitXor(a, value), bits8);
      case Lda => Logic(value, bits8);
      case Adc => Add(value, bits8);
      case Sbc => Subtract(value, bits8);
      case Cmp => CompareWith(a, value, bits8);
      case Bit =>
        TestTopBits(value, bits8);
        TestAgainstAccumulator(value, bits8);
      case BitImm => TestAgainstAccumulator(value, bits8);
    }

    /** The accumulator instructions, from any source. */
    method AccumulatorOp(op: AluOp, from: Source)
      requires Valid()
      modifies this, ram
      ensures S() == AccumulatorInstr(old(S()), op, from)
    {
      ghost var s := S();
      var bits8 := M8();
      var value := LoadSource(from, bits8);
      Operate(op, value, bits8);
      AccumulatorInstrIs(s, op, from, value, bits8, SourceLength(from, bits8), S());
    }

    // ----- read-modify-write

    method NewValue(op: RmwOp, v: Word, bits8: bool) returns (tmp: int)
      requires Valid()
      ensures tmp == Modified(S(), op, v, bits8)
    {
      var a := if bits8 then c % 0x100 else c;
      assert a == S().Acc(bits8) && (p & P_CARRY != 0) == S().Has(P_CARRY);
      match op
      case Asl => tmp := 2 * v;
      case Rol => tmp := 2 * v + if p & P_CARRY != 0 then 1 else 0;
      case Lsr => tmp := v / 2;
      case Ror =>
        tmp := v;
        if p & P_CARRY != 0 {
          tmp := tmp + if bits8 then 0x100 else 0x10000;
        }
        tmp := tmp / 2;
      case Inc => tmp := v + 1;
      case Dec => tmp := v - 1;
      case Tsb => tmp := BitOr(v, a);
      case Trb => tmp := BitAnd(v, 0xffff - a);
    }

    method SetModifyFlags(op: RmwOp, v: Word, tmp: int, bits8: bool)
      requires Valid()
      modifies this`p, this`n, this`z
      ensures S() == ModifyFlags(old(S()), op, v, tmp, bits8)
    {
      if op.Tsb? || op.Trb? {
        TestAgainstAccumulator(v, bits8);
      } else {
        if op.Asl? || op.Rol? {
          SetFlag(P_CARRY, BitSet(tmp, if bits8 then 0x100 else 0x10000));
        } else if op.Lsr? || op.Ror? {
          SetFlag(P_CARRY, v % 2 == 1);
        }
        SetNz(tmp, bits8);
      }
    }

    method ModifyAccumulator(op: RmwOp)
      requires Valid()
      modifies this
      ensures S() == ReadModifyWrite(old(S()), op, Target.Acc)
    {
      ghost var s := S();
      var bits8 := M8();
      var v := if bits8 then c % 0x100 else c;
      IncPc(1);
      var tmp := NewValue(op, v, bits8);
      ModifiedSkip(s, op, v, bits8, 1);
      ModifyAccumulatorIs(s, op, v, tmp, bits8);
      SetModifyFlags(op, v, tmp, bits8);
      SetAccumulator(tmp, bits8);
    }

    method ModifyMemory(op: RmwOp, m: Mode)
      requires Valid() && (m.Dp? || m.DpX? || m.Abs? || m.AbsX?)
      modifies this, ram
      ensures S() == ReadModifyWrite(old(S()), op, Target.Cell(m))
    {
      ghost var s := S();
      ghost var ea := EffectiveAddress(s, m);
      var bits8 := M8();
      var v, last := LoadRrw(m, bits8);
      var tmp := NewValue(op, v, bits8);
      ModifiedSkip(s, op, v, bits8, Length(m));
      ModifyCellIs(s, op, m, ea, v, tmp, bits8);
      SetModifyFlags(op, v, tmp, bits8);
      StoreRrw(m, last, tmp, bits8, ea);
    }

    // ----- index registers and transfers

    method SetIndexRegister(r: Index, v: Word)
      requires Valid()
      modifies this`x, this`y
      ensures S() == SetIndex(old(S()), r, v)
    {
      if r.X? {
        x := v;
      } else {
        y := v;
      }
    }

    /** Set an index register at its width, with N and Z. */
    method SetIndexNarrow(r: Index, v: Word)
      requires Valid()
      modifies this`x, this`y, this`n, this`z
      ensures S() == LoadIndex(old(S()), r, v)
    {
      SetIndexRegister(r, if X8() then v % 0x100 else v);
      SetNz(if r.X? then x else y, X8());
    }

    method LoadIndexOp(r: Index, from: Source)
      requires Valid()
      modifies this, ram
      ensures S() == LoadInstr(old(S()), r, from)
    {
      ghost var s := S();
      var bits8 := X8();
      var value := LoadSource(from, bits8);
      SetIndexNarrow(r, value);
      IndexSkip(s, r, value, SourceLength(from, bits8));
    }

    method CompareIndexOp(r: Index, from: Source)
      requires Valid()
      modifies this, ram
      ensures S() == CompareInstr(old(S()), r, from)
    {
      ghost var s := S();
      var bits8 := X8();
      var value := LoadSource(from, bits8);
      CompareWith(if r.X? then x else y, value, bits8);
      CompareSkip(s, GetIndex(s, r), value, bits8, SourceLength(from, bits8));
    }

    method StepIndexOp(r: Index, up: bool)
      requires Valid()
      modifies this
      ensures S() == StepInstr(old(S()), r, up)
    {
      IncPc(1);
      SetIndexNarrow(r, ((if r.X? then x else y) + if up then 1 else -1) % 0x10000);
    }

    method Transfer(t: Transfer)
      requires Valid()
      modifies this
      ensures S() == CopyRegister(old(S()), t)
    {
      hide LoadIndex, State.SetNZ;
      match t
      case Tax => SetIndexNarrow(X, c);
      case Tay => SetIndexNarrow(Y, c);
      case Tsx => SetIndexNarrow(X, sp);
      case Txa =>
        SetAccumulator(x, M8());
        SetNz(x, M8());
      case Tya =>
        SetAccumulator(y, M8());
        SetNz(y, M8());
      case Txs => sp := if !emul || BitSet(x, 0x100) then x else x + 0x100;
      case Txy =>
        y := x;
        SetNz(y, X8());
      case Tyx =>
        x := y;
        SetNz(x, X8());
      case Tcd =>
        dpr := c;
        SetNz(dpr, false);
      case Tdc =>
        c := dpr;
        SetNz(c, false);
      case Tcs => sp := if emul then 0x100 + c % 0x100 else c;
      case Tsc =>
        c := sp;
        SetNz(c, false);
      case Xba => c := 0x100 * (c % 0x100) + c / 0x100;
    }

    method NarrowIndexes()
      requires Valid()
      modifies this`x, this`y
      ensures S() == old(S()).Narrow()
    {
      if X8() {
        x, y := x % 0x100, y % 0x100;
      }
    }

    // ----- block move

    /** The two banks; only the last execution steps past them. */
    method MoveBanks() returns (dest: Byte, source: Byte)
      requires Valid()
      modifies this`pc
      ensures S() == if old(c) == 0 then old(S()).Skip(3) else old(S())
      ensures dest == if old(c) == 0 then old(S()).Operand(1) else old(S()).Fetch(old(pc) + 1)
      ensures source == if old(c) == 0 then old(S()).Operand(2) else old(S()).Fetch(old(pc) + 2)
    {
      if c == 0 {
        dest, source := WordParam();
      } else {
        dest := FetchParam(pc + 1);
        source := FetchParam(pc + 2);
      }
    }

    method MoveByte(up: bool)
      requires Valid()
      modifies this, ram
      ensures S() == MoveStep(old(S()), up)
    {
      hide MoveStep, Stepped;
      ghost var s := S();
      var dest, source := MoveBanks();
      MoveStepIs(s, up, S(), dest, source);
      MoveData(dest, source);
      StepIndexes(up);
      c := (c - 1) % 0x10000;
    }

    method StepIndexes(up: bool)
      requires Valid()
      modifies this`x, this`y
      ensures S() == Stepped(old(S()), up)
    {
      x := (x + if up then 1 else -1) % 0x10000;
      y := (y + if up then 1 else -1) % 0x10000;
      NarrowIndexes();
    }

    method MoveData(dest: Byte, source: Byte)
      requires Valid()
      modifies this`dbr, ram
      ensures S() ==
              old(S()).(dbr := dest).Store(old(y) + 0x10000 * (dest as int),
              old(S()).Load(old(x) + 0x10000 * (source as int)))
    {
      var tmp := LoadLong(x + 0x10000 * (source as int));
      dbr := dest;
      StoreLong(y + 0x10000 * (dbr as int), tmp);
    }

    // ----- branches, jumps and calls

    method BranchOp(cond: Condition)
      requires Valid()
      modifies this
      ensures S() == ExecuteFlow(old(S()), Branch(cond))
    {
      var taken := Condition(cond);
      BranchTo(taken);
    }

    method Condition(cond: Condition) returns (taken: bool)
      requires Valid()
      ensures taken == Holds(S(), cond)
    {
      match cond
      case Bpl => taken := n < 0x80;
      case Bmi => taken := n >= 0x80;
      case Bvc => taken := p & P_OVERFLOW == 0;
      case Bvs => taken := p & P_OVERFLOW != 0;
      case Bcc => taken := p & P_CARRY == 0;
      case Bcs => taken := p & P_CARRY != 0;
      case Bne => taken := z != 0;
      case Beq => taken := z == 0;
      case Always => taken := true;
    }

    method BranchTo(taken: bool)
      requires Valid()
      modifies this`pc
      ensures S() == if taken then old(S()).(pc := (old(pc) + 2 + SignedByte(old(S()).Operand(1))) % 0x10000)
              else old(S()).Skip(2)
    {
      ghost var s := S();
      var p1 := ByteParam();
      if taken {
        BranchWraps(s.pc, SignedByte(p1));
        pc := (pc + SignedByte(p1)) % 0x10000;
      }
    }

    method BranchLong()
      requires Valid()
      modifies this`pc
      ensures S() == ExecuteFlow(old(S()), Brl)
    {
      ghost var s := S();
      var p1 := NextParam(S(), 0);
      var p2 := NextParam(s, 1);
      var distance: nat := p1 + 0x100 * (p2 as int) + 1;
      IncPc(distance);
      SkipTwice(s, 2, distance);
    }

    method WordOperand() returns (v: Word)
      requires Valid()
      modifies this`pc
      ensures S() == old(S()).Skip(2) && v == OperandWord(old(S()))
    {
      ghost var s := S();
      var p1 := NextParam(S(), 0);
      var p2 := NextParam(s, 1);
      v := p1 + 0x100 * (p2 as int);
    }

    method Jump()
      requires Valid()
      modifies this`pc
      ensures S() == ExecuteFlow(old(S()), Jmp)
    {
      var target := WordOperand();
      pc := target;
    }

    /** A word in bank 0 whose second byte wraps to the start of the bank. */
    method Bank0Word(ea: Word) returns (v: Word)
      requires Valid()
      ensures v == S().Load(ea) + 0x100 * Bank0(S(), ea + 1)
    {
      var low := LoadLong(ea);
      var high := LoadBank0(ea as int + 1);
      v := low + 0x100 * (high as int);
    }

    /** A word in the program bank. */
    method ProgramWord(ea: Word) returns (v: Word)
      requires Valid()
      ensures v == S().Fetch(ea) + 0x100 * S().Fetch((ea + 1) % 0x10000)
    {
      var low := FetchParam(ea);
      var high := FetchParam((ea as int + 1) % 0x10000);
      v := low + 0x100 * (high as int);
    }

    method JumpIndirect()
      requires Valid()
      modifies this`pc
      ensures S() == ExecuteFlow(old(S()), JmpInd)
    {
      var ea := WordOperand();
      var target := Bank0Word(ea);
      pc := target;
    }

    method JumpIndirectLong()
      requires Valid()
      modifies this`pc, this`pbr
      ensures S() == ExecuteFlow(old(S()), JmpIndLong)
    {
      hide OperandWord;
      var ea := WordOperand();
      var target := Bank0Word(ea);
      var bank := LoadBank0(ea as int + 2);
      pc := target;
      pbr := bank;
    }

    method JumpThroughTable(p1: Byte)
      requires Valid()
      modifies this`pc
      ensures S() == TableJump(old(S()), p1)
    {
      var p2 := FetchParam(pc);
      var target := ProgramWord((p1 + 0x100 * (p2 as int) + x) % 0x10000);
      pc := target;
    }

    method JumpIndexed()
      requires Valid()
      modifies this`pc
      ensures S() == ExecuteFlow(old(S()), JmpIndX)
    {
      var p1 := ByteParam();
      JumpThroughTable(p1);
    }

    method JumpLong()
      requires Valid()
      modifies this`pc, this`pbr
      ensures S() == ExecuteFlow(old(S()), JmpLong)
    {
      ghost var s := S();
      var operand := WordOperand();
      var bank := NextParam(s, 2);
      pbr := bank;
      pc := operand;
    }

    method PushPc()
      requires Valid()
      modifies this`sp, ram
      ensures S() == old(S()).PushWord(old(pc))
    {
      PushBoth(pc);
    }

    method PushBoth(v: int)
      requires Valid()
      modifies this`sp, ram
      ensures S() == old(S()).PushWord(v)
    {
      PushCut(S(), v);
      Push(v / 0x100);
      PushCut(S(), v);
      Push(v);
    }

    method CallSubroutine()
      requires Valid()
      modifies this, ram
      ensures S() == JumpSubroutine(old(S()))
    {
      var target := WordOperand();
      PushPc();
      pc := target;
    }

    /** A byte stored below an unwrapped stack pointer. */
    method PushUnwrapped(v: int)
      requires Valid()
      modifies this`sp, ram
      ensures S() == old(S()).PushRaw(v)
    {
      StoreLong(sp, v);
      sp := (sp - 1) % 0x10000;
    }

    method PushWideWord(v: int)
      requires Valid()
      modifies this`sp, ram
      ensures S() == PushWide(old(S()), v)
    {
      PushCut(S(), v);
      PushUnwrapped(v / 0x100);
      PushCut(S(), v);
      Push(v);
    }

    method CallIndexed()
      requires Valid()
      modifies this, ram
      ensures S() == JumpSubroutineIndexed(old(S()))
    {
      var p1 := ByteParam();
      PushWideWord(pc);
      JumpThroughTable(p1);
    }

    /** The bank goes on the stack, with the target address read and its own byte still to come. */
    method StackBank() returns (target: Word)
      requires Valid()
      modifies this`pc, this`sp, ram
      ensures S() == old(S()).Skip(3).PushRaw(old(pbr)) && target == OperandWord(old(S()))
    {
      ghost var s := S();
      target := WordOperand();
      IncPc(1);
      SkipTwice(s, 2, 1);
      PushUnwrapped(pbr);
    }

    method CallLong()
      requires Valid()
      modifies this, ram
      ensures S() == JumpSubroutineLong(old(S()))
    {
      hide PushWide, State.Skip, State.PushRaw, OperandWord;
      var target := StackBank();
      ghost var t := S();
      var bank := FetchParam(pc);
      pbr := bank;
      PushWideBank(t, pc, bank);
      PushWideWord(pc);
      pc := target;
    }

    method ReturnFromSubroutine()
      requires Valid()
      modifies this
      ensures S() == Return(old(S()))
    {
      var low := Pull();
      var high := Pull();
      pc := (low + 0x100 * (high as int) + 1) % 0x10000;
    }

    /** The unwrapped reads of RTL and PLD. */
    method PullUnwrapped(ghost s: State, ghost k: nat) returns (b: Byte)
      requires Valid() && S() == s.(sp := (s.sp + k) % 0x10000)
      modifies this`sp
      ensures S() == s.(sp := (s.sp + k + 1) % 0x10000) && b == Raw(s, k + 1)
    {
      RawUp(s.sp, k);
      sp := (sp + 1) % 0x10000;
      b := LoadLong(sp);
    }

    method Rewrap(ghost s: State, ghost k: nat)
      requires Valid() && S() == s.(sp := (s.sp + k) % 0x10000)
      modifies this`sp
      ensures S() == Rewrapped(s, s.sp + k)
    {
      RewrapCut(s, S(), k);
      if emul {
        sp := sp % 0x100 + 0x100;
      }
    }

    method ReturnFromLong()
      requires Valid()
      modifies this
      ensures S() == ReturnLong(old(S()))
    {
      hide Raw;
      ghost var s := S();
      var low := PullUnwrapped(s, 0);
      var high := PullUnwrapped(s, 1);
      var bank := PullUnwrapped(s, 2);
      Rewrap(s, 3);
      ReturnTo(low, high, bank);
    }

    method ReturnTo(low: Byte, high: Byte, bank: Byte)
      requires Valid()
      modifies this`pc, this`pbr
      ensures S() == old(S()).(pc := (low + 0x100 * (high as int) + 1) % 0x10000, pbr := bank)
    {
      pc := (low + 0x100 * (high as int) + 1) % 0x10000;
      pbr := bank;
    }

    method SetStatusByte(v: Byte)
      requires Valid()
      modifies this`p, this`n, this`z
      ensures S() == old(S()).SetStatus(v)
    {
      p := (v as bv8) & !(P_ZERO | P_SIGN);
      z := if (v as bv8) & P_ZERO != 0 then 0 else 1;
      n := v;
    }

    method PullWord() returns (v: Word)
      requires Valid()
      modifies this`sp
      ensures S() == old(S()).PulledWord() && v == old(S()).TopWord()
    {
      var low := Pull();
      var high := Pull();
      v := low + 0x100 * (high as int);
    }

    method PullStatusByte()
      requires Valid()
      modifies this
      ensures S() == PullStatus(old(S()))
    {
      var tmp := Pull();
      SetStatusByte(tmp);
      NarrowIndexes();
    }

    method ReturnInterrupt()
      requires Valid()
      modifies this
      ensures S() == ReturnFromInterrupt(old(S()))
    {
      PullStatusByte();
      var target := PullWord();
      pc := target;
      if !emul {
        var bank := Pull();
        pbr := bank;
      }
    }

    /** D cleared, I set, and off through the vector in bank 0. */
    method ThroughVector(vector: nat)
      requires Valid()
      modifies this
      ensures S() == Vectored(old(S()), vector)
    {
      SetFlag(P_DECIMAL, false);
      SetFlag(P_INTERRUPT, true);
      var low := LoadLong(vector);
      var high := LoadLong(vector + 1);
      pc := low + 0x100 * (high as int);
      pbr := 0;
    }

    function StatusByte(): bv8
      reads this`p, this`n, this`z
    {
      p | (if n >= 0x80 then P_SIGN else 0) | (if z == 0 then P_ZERO else 0)
    }

    method BreakInstruction()
      requires Valid()
      modifies this, ram
      ensures S() == Break(old(S()))
    {
      IncPc(2);
      if emul {
        SetFlag(P_BREAK, true);
        PushPc();
        PushStatusByte(P_UNUSED);
        ThroughVector(0xfffe);
      } else {
        Push(pbr);
        PushPc();
        PushStatusByte(0);
        ThroughVector(0xffe6);
      }
    }

    method PushStatusByte(extra: bv8)
      requires Valid()
      modifies this`sp, ram
      ensures S() == old(S()).Push((old(S()).Status() | extra) as int)
    {
      assert StatusByte() == S().Status();
      Push((StatusByte() | extra) as int);
    }

    method FlowInstruction(op: FlowOp)
      requires Valid()
      modifies this, ram
      ensures S() == ExecuteFlow(old(S()), op)
    {
      match op
      case Branch(cond) => BranchOp(cond);
      case Brl => BranchLong();
      case Jmp => Jump();
      case JmpInd => JumpIndirect();
      case JmpIndX => JumpIndexed();
      case JmpIndLong => JumpIndirectLong();
      case JmpLong => JumpLong();
      case Jsr => CallSubroutine();
      case JsrIndX => CallIndexed();
      case JsrLong => CallLong();
      case Rts => ReturnFromSubroutine();
      case Rtl => ReturnFromLong();
      case Rti => ReturnInterrupt();
      case Brk => BreakInstruction();
    }

    // ----- pushes and pulls

    method StoreStack(value: Word, bits8: bool)
      requires Valid()
      modifies this`pc, this`sp, ram
      ensures S() == PushIndex(old(S()).Skip(1), value, bits8)
    {
      IncPc(1);
      if bits8 {
        Push(value);
      } else {
        PushBoth(value);
      }
    }

    method PushEffective(ea: nat)
      requires Valid()
      modifies this`sp, ram
      ensures S() == PushWide(old(S()), EffectiveWord(old(S()), ea))
    {
      var low := LoadBank0(ea);
      var high := LoadBank0(ea + 1);
      PushWideWord(low + 0x100 * (high as int));
    }

    /** PEA pushes its operand, PER adds it to the address of the next instruction. */
    method PushOperand(relative: bool)
      requires Valid()
      modifies this, ram
      ensures S() == ExecutePush(old(S()), if relative then Per else Pea)
    {
      var p1, p2 := WordParam();
      if relative {
        PushWideWord(pc + p1 + 0x100 * (p2 as int));
      } else {
        PushWideWord(p1 + 0x100 * (p2 as int));
      }
    }

    method PushWideInstruction(op: PushOp)
      requires Valid() && (op.Phd? || op.Pea? || op.Pei? || op.Per?)
      modifies this, ram
      ensures S() == ExecutePush(old(S()), op)
    {
      hide PushWide;
      if op.Phd? {
        IncPc(1);
        PushWideWord(dpr);
      } else if op.Pei? {
        var p1 := ByteParam();
        PushEffective(p1 + dpr);
      } else {
        PushOperand(op.Per?);
      }
    }

    method PushInstruction(op: PushOp)
      requires Valid()
      modifies this, ram
      ensures S() == ExecutePush(old(S()), op)
    {
      hide PushIndex;
      match op
      case Pha => StoreStack(if M8() then c % 0x100 else c, M8());
      case Ph(r) => StoreStack(if r.X? then x else y, X8());
      case Phb => StoreStack(dbr, true);
      case Phk => StoreStack(pbr, true);
      case Php => StoreStack((if emul then StatusByte() | P_UNUSED | P_BREAK else StatusByte()) as int, true);
      case _ => PushWideInstruction(op);
    }

    method LoadStack(bits8: bool) returns (v: Word)
      requires Valid()
      modifies this`pc, this`sp
      ensures S() == if bits8 then old(S()).Skip(1).Pulled() else old(S()).Skip(1).PulledWord()
      ensures v == if bits8 then old(S()).Skip(1).Top() else old(S()).Skip(1).TopWord()
    {
      IncPc(1);
      if bits8 {
        v := Pull();
      } else {
        v := PullWord();
      }
    }

    method PullAccumulatorOp()
      requires Valid()
      modifies this
      ensures S() == PullAccumulator(old(S()).Skip(1), old(M8()))
    {
      var bits8 := M8();
      var v := LoadStack(bits8);
      SetAccumulator(v, bits8);
      SetNz(v, bits8);
    }

    method PullIndexOp(r: Index)
      requires Valid()
      modifies this
      ensures S() == PullIndex(old(S()).Skip(1), r, old(X8()))
    {
      var bits8 := X8();
      var v := LoadStack(bits8);
      SetIndexRegister(r, v);
      SetNz(v, bits8);
    }

    method PullDirectOp()
      requires Valid()
      modifies this
      ensures S() == PullDirect(old(S()))
    {
      hide State.SetNZ;
      ghost var s := S();
      var low := PullUnwrapped(s, 0);
      var high := PullUnwrapped(s, 1);
      Rewrap(s, 2);
      dpr := low + 0x100 * (high as int);
      SetNz(dpr, false);
    }

    method PullInstruction(op: PullOp)
      requires Valid()
      modifies this
      ensures S() == ExecutePull(old(S()), op)
    {
      match op
      case Pla => PullAccumulatorOp();
      case Pl(r) => PullIndexOp(r);
      case Plb =>
        var v := LoadStack(true);
        dbr := v;
        SetNz(dbr, true);
      case Plp =>
        IncPc(1);
        PullStatusByte();
      case Pld =>
        IncPc(1);
        PullDirectOp();
    }

    // ----- status instructions

    /** REP and SEP, bit by bit. */
    method RepSep(bits: bv8, on: bool)
      requires Valid()
      modifies this
      ensures S() == ChangeStatus(old(S()), bits, on)
    {
      hide StatusBits;
      SetSignZero(bits, on);
      IndexBitSet(p, bits);
      RepSepBits(bits, on);
      if on && bits & P_X != 0 && !emul {
        NarrowIndexes();
      }
    }

    method SetSignZero(bits: bv8, on: bool)
      requires Valid()
      modifies this`n, this`z
      ensures S() == ChosenSignZero(old(S()), bits, on)
    {
      if bits & P_SIGN != 0 {
        n := if on then 0x80 else 0;
      }
      if bits & P_ZERO != 0 {
        z := if on then 0 else 1;
      }
    }

    method RepSepBit(bits: bv8, bit: bv8, on: bool)
      requires Valid()
      modifies this`p
      ensures p == ChosenBit(old(p), bits, bit, on)
    {
      if bits & bit != 0 {
        SetFlag(bit, on);
      }
    }

    method RepSepBits(bits: bv8, on: bool)
      requires Valid()
      modifies this`p
      ensures p == StatusBits(old(p), bits, on, emul)
    {
      RepSepBit(bits, P_OVERFLOW, on);
      if !emul {
        RepSepBit(bits, P_M, on);
        RepSepBit(bits, P_X, on);
      }
      RepSepBit(bits, P_DECIMAL, on);
      RepSepBit(bits, P_INTERRUPT, on);
      RepSepBit(bits, P_CARRY, on);
    }

    method ExchangeCarryEmulation()
      requires Valid()
      modifies this
      ensures S() == ExchangeEmulation(old(S()))
    {
      if (p & P_CARRY != 0) != emul {
        if p & P_CARRY != 0 {
          emul := true;
          SetFlag(P_CARRY, false);
          SetFlag(P_BREAK, false);
          x, y := x % 0x100, y % 0x100;
          sp := 0x100 + sp % 0x100;
        } else {
          emul := false;
          SetFlag(P_CARRY, true);
          SetFlag(P_M, true);
          SetFlag(P_X, true);
        }
      }
    }

    method SystemInstruction(op: SystemOp)
      requires Valid()
      modifies this
      ensures S() == ExecuteSystem(old(S()), op)
    {
      match op
      case ChangeFlag(flag, on) =>
        IncPc(1);
        SetFlag(Mask(flag), on);
      case Rep =>
        var p1 := ByteParam();
        RepSep(p1 as bv8, false);
      case Sep =>
        var p1 := ByteParam();
        RepSep(p1 as bv8, true);
      case Xce =>
        IncPc(1);
        ExchangeCarryEmulation();
      case Nop => IncPc(1);
      case Wdm => IncPc(2);
      case Halt =>
    }

    // ----- one instruction

    /** STA, STX, STY or STZ: what is stored and how wide. */
    method StoredRegister(what: Stored) returns (value: Word, bits8: bool)
      requires Valid()
      ensures value == StoredValue(S(), what) && bits8 == StoredWidth(S(), what)
    {
      match what
      case FromC => value, bits8 := c, M8();
      case FromX => value, bits8 := x, X8();
      case FromY => value, bits8 := y, X8();
      case FromZero => value, bits8 := 0, M8();
    }

    method StoreInstruction(what: Stored, m: Mode)
      requires Valid()
      modifies this, ram
      ensures S() == StoreOperand(old(S()), what, m)
    {
      var value, bits8 := StoredRegister(what);
      StoreMode(m, value, bits8);
    }

    method ModifyInstruction(op: RmwOp, target: Target)
      requires Valid() && Modifiable(target)
      modifies this, ram
      ensures S() == ReadModifyWrite(old(S()), op, target)
    {
      match target
      case Acc => ModifyAccumulator(op);
      case Cell(m) => ModifyMemory(op, m);
    }

    method RegisterInstruction(i: Instr)
      requires Valid() && (i.Alu? || i.Ld? || i.Cp? || i.StepIndex? || i.Copy? || i.Move?)
      modifies this, ram
      ensures S() == Execute(old(S()), i)
    {
      match i
      case Alu(op, from) => AccumulatorOp(op, from);
      case Ld(r, from) => LoadIndexOp(r, from);
      case Cp(r, from) => CompareIndexOp(r, from);
      case StepIndex(r, up) => StepIndexOp(r, up);
      case Copy(t) =>
        IncPc(1);
        Transfer(t);
      case Move(up) => MoveByte(up);
    }

    method OtherInstruction(i: Instr)
      requires Valid() && Implemented(i) && !(i.Alu? || i.Ld? || i.Cp? || i.StepIndex? || i.Copy? || i.Move?)
      modifies this, ram
      ensures S() == Execute(old(S()), i)
    {
      match i
      case Rmw(op, target) => ModifyInstruction(op, target);
      case Write(what, m) => StoreInstruction(what, m);
      case Flow(op) => FlowInstruction(op);
      case Push(op) => PushInstruction(op);
      case Pull(op) => PullInstruction(op);
      case System(op) => SystemInstruction(op);
    }

    /** Fetch, decode and execute. */
    method ExecuteOneInstruction()
      requires Valid()
      modifies this, ram
      ensures S() == Step(old(S()))
    {
      var p0 := FetchParam(pc);
      var i := Decode(p0);
      DecodeImplemented(p0);
      if i.Alu? || i.Ld? || i.Cp? || i.StepIndex? || i.Copy? || i.Move? {
        RegisterInstruction(i);
      } else {
        OtherInstruction(i);
      }
    }

    /** One instruction of a run that has `left` to go. */
    method ExecuteNext(ghost goal: State, ghost left: nat)
      requires Valid() && left > 0 && Run(S(), left) == goal
      modifies this, ram
      ensures Run(S(), left - 1) == goal
    {
      ghost var before := S();
      ExecuteOneInstruction();
      RunOn(before, S(), left);
    }

    /** Instruction after instruction; the facts every mode relies on stay true. */
    method ExecuteInstructions(count: nat)
      requires Valid()
      modifies this, ram
      ensures S() == Run(old(S()), count) && (Sane(old(S())) ==> Sane(S()))
    {
      hide Run, Sane, Step;
      ghost var s := S();
      ghost var goal := Run(S(), count);
      for i := 0 to count
        invariant Run(S(), count - i) == goal
      {
        ExecuteNext(goal, count - i);
      }
      RunNothing(S());
      if Sane(s) {
        RunSane(s, count);
      }
    }

    /** The programmatic reset, which does not narrow X, Y or the stack pointer. */
    method Reset()
      requires Valid()
      modifies this
      ensures S() == Modes.Reset(old(S()))
    {
      pc, pbr, dpr, dbr, emul := 0, 0, 0, 0, true;
    }
  }

  lemma RunNothing(s: State)
    ensures Run(s, 0) == s
  {
  }

  /** From power-on, however long it runs: registers within their modes, SP in page 1 in emulation, and the
      whole machine where the instruction set takes it. */
  method RunFromPowerOn(memory: array<Byte>, count: nat) returns (cpu: Cpu)
    requires memory.Length == RAMSIZE
    modifies memory
    ensures fresh(cpu) && cpu.ram == memory && cpu.Valid() && cpu.S() == Run(PowerOn(old(memory[..])), count)
    ensures (cpu.emul || cpu.X8() ==> cpu.x < 0x100 && cpu.y < 0x100) && (cpu.emul ==> 0x100 <= cpu.sp < 0x200)
  {
    cpu := new Cpu(memory);
    PowerOnRunSane(memory[..], count);
    cpu.ExecuteInstructions(count);
  }
}
