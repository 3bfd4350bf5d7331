/** The registers, flags and memory of the 65816 emulator, and the pieces its instructions
    are made of (emulator/65816core.c, emulator/65816.c, emulator/sys_processor.cpp). */
module Machine {
  import opened Primitives

  const RAMSIZE := 0x100000

  type Ram = m: seq<Byte> | |m| == RAMSIZE witness seq(RAMSIZE, i => 0)

  const P_SIGN: bv8 := 0x80
  const P_OVERFLOW: bv8 := 0x40
  const P_UNUSED: bv8 := 0x20
  const P_M: bv8 := 0x20
  const P_X: bv8 := 0x10
  const P_BREAK: bv8 := 0x10
  const P_DECIMAL: bv8 := 0x08
  const P_INTERRUPT: bv8 := 0x04
  const P_ZERO: bv8 := 0x02
  const P_CARRY: bv8 := 0x01

  /** The low byte and the next byte of a C value stored through a wider variable. */
  function Lo(v: int): Byte {
    v % 0x100
  }

  function Hi(v: int): Byte {
    v / 0x100 % 0x100
  }

  /** Bitwise operations on unsigned numbers of n bits. */
  datatype BitOp = AndBits | OrBits | XorBits

  function Weight(n: nat): nat {
    if n == 0 then 1 else 2 * Weight(n - 1)
  }

  function Bitwise(op: BitOp, a: nat, b: nat, n: nat): (r: nat)
    ensures r < Weight(n)
  {
    if n == 0 then 0
    else
      var x, y := a % 2 == 1, b % 2 == 1;
      2 * Bitwise(op, a / 2, b / 2, n - 1) +
        if (match op case AndBits => x && y case OrBits => x || y case XorBits => x != y) then 1 else 0
  }

  lemma Weights()
    ensures Weight(7) == 0x80 && Weight(8) == 0x100 && Weight(15) == 0x8000 && Weight(16) == 0x10000
  {
    assert Weight(2) == 4 && Weight(4) == 0x10 && Weight(6) == 0x40 && Weight(8) == 0x100;
    assert Weight(10) == 0x400 && Weight(12) == 0x1000 && Weight(14) == 0x4000;
  }

  function BitAnd(a: Word, b: Word): Word {
    Weights();
    Bitwise(AndBits, a, b, 16)
  }

  function BitOr(a: Word, b: Word): Word {
    Weights();
    Bitwise(OrBits, a, b, 16)
  }

  function BitXor(a: Word, b: Word): Word {
    Weights();
    Bitwise(XorBits, a, b, 16)
  }

  /** reg_p with the given bits set or cleared. */
  function WithBits(p: bv8, mask: bv8, on: bool): bv8 {
    if on then p | mask else p & !mask
  }

  /** `n` and `z` are flag_n and flag_z, kept apart from reg_p: N is bit 7 of n, Z means z is 0. */
  datatype State = State(c: Word, x: Word, y: Word, pbr: Byte, dbr: Byte, dpr: Word,
                         p: bv8, sp: Word, n: Byte, z: Byte, emul: bool, pc: nat, ram: Ram)
  {
    // ----- memory: addresses wrap at the size of the RAM

    function Load(addr: nat): Byte {
      ram[addr % RAMSIZE]
    }

    function Store(addr: nat, v: int): State {
      this.(ram := ram[addr % RAMSIZE := Lo(v)])
    }

    /** Address of a program byte. The program bank is or-ed in, so one step past the
        end of a bank lands in the odd bank of the pair. */
    function FetchAddress(at: nat): nat {
      if at < 0x10000 then at + 0x10000 * (pbr as int)
      else at % 0x10000 + 0x10000 * (if pbr % 2 == 0 then pbr + 1 else pbr)
    }

    function Fetch(at: nat): Byte {
      Load(FetchAddress(at))
    }

    /** Operand byte i of the instruction at the program counter. */
    function Operand(i: nat): Byte {
      Fetch((pc + i) % 0x10000)
    }

    function Skip(n: nat): State {
      this.(pc := (pc + n) % 0x10000)
    }

    // ----- flags

    predicate Has(mask: bv8) {
      p & mask != 0
    }

    function Flag(mask: bv8, on: bool): State {
      this.(p := WithBits(p, mask, on))
    }

    predicate M8() {
      emul || Has(P_M)
    }

    predicate X8() {
      emul || Has(P_X)
    }

    predicate Sign() {
      n >= 0x80
    }

    predicate Zero() {
      z == 0
    }

    function Carry(): int {
      if Has(P_CARRY) then 1 else 0
    }

    function SetNZ(v: int, bits8: bool): State {
      if bits8 then this.(n := Lo(v), z := Lo(v))
      else this.(n := Hi(v), z := Lo(BitOr(Lo(v), Hi(v))))
    }

    function SetZero(on: bool): State {
      this.(z := if on then 0 else 1)
    }

    function SetSign(on: bool): State {
      this.(n := if on then 0x80 else 0)
    }

    /** The status byte as pushed in native mode; emulation mode adds the unused bit. */
    function Status(): bv8 {
      p | (if Sign() then P_SIGN else 0) | (if Zero() then P_ZERO else 0)
    }

    function SetStatus(v: Byte): State {
      this.(p := (v as bv8) & !(P_ZERO | P_SIGN), z := if (v as bv8) & P_ZERO != 0 then 0 else 1, n := v)
    }

    /** X and Y lose their high bytes whenever index registers are 8 bits wide. */
    function Narrow(): State {
      if X8() then this.(x := Lo(x), y := Lo(y)) else this
    }

    // ----- accumulator: A is the low byte of C

    function A(): Byte {
      Lo(c)
    }

    function Acc(bits8: bool): Word {
      if bits8 then A() else c
    }

    function SetAcc(v: int, bits8: bool): State {
      this.(c := if bits8 then c - A() + Lo(v) else v % 0x10000)
    }

    // ----- stack

    function StackDown(): Word {
      if emul then 0x100 + (sp - 1) % 0x100 else (sp - 1) % 0x10000
    }

    function StackUp(): Word {
      if emul then 0x100 + (sp + 1) % 0x100 else (sp + 1) % 0x10000
    }

    function Push(v: int): State {
      Store(sp, v).(sp := StackDown())
    }

    /** The byte a pull would give; Pulled is the state after it. */
    function Top(): Byte {
      Load(StackUp())
    }

    function Pulled(): State {
      this.(sp := StackUp())
    }

    function PushWord(v: int): State {
      Push(Hi(v)).Push(Lo(v))
    }

    function TopWord(): Word {
      Top() + 0x100 * Pulled().Top()
    }

    function PulledWord(): State {
      Pulled().Pulled()
    }

    /** Some instructions move the stack pointer without the emulation-mode wrap. */
    function PushRaw(v: int): State {
      Store(sp, v).(sp := (sp - 1) % 0x10000)
    }
  }

  /** The state the emulator's variables start in. */
  function PowerOn(ram: Ram): State {
    State(0, 0, 0, 0, 0, 0, 0, 0x100, 0, 0, true, 0, ram)
  }
}
