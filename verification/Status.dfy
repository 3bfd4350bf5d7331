/** The status register, whose N and Z live elsewhere: what changes it and what is seen of it
    (emulator/65816core.c). */
module Status {
  import opened Primitives
  import opened Machine
  import opened Instructions
  import opened Opcodes
  import opened Modes
  import opened Stack
  import opened Registers

  lemma FlagOpcodes()
    ensures Decode(0x18) == System(ChangeFlag(C, false)) && Decode(0x38) == System(ChangeFlag(C, true))
    ensures Decode(0x58) == System(ChangeFlag(I, false)) && Decode(0x78) == System(ChangeFlag(I, true))
  {
  }

  lemma DecimalOpcodes()
    ensures Decode(0xd8) == System(ChangeFlag(D, false)) && Decode(0xf8) == System(ChangeFlag(D, true))
    ensures Decode(0xb8) == System(ChangeFlag(V, false))
  {
  }

  /** One flag of the status is set or cleared, and nothing else changes but the program counter. */
  predicate FlagIs(s: State, t: State, mask: bv8, on: bool) {
    t == s.(p := t.p, pc := (s.pc + 1) % 0x10000) && t.Has(mask) == on && t.p & !mask == s.p & !mask
  }

  lemma FlagSet(s: State, mask: bv8, on: bool)
    requires mask == 0x01 || mask == 0x04 || mask == 0x08 || mask == 0x40
    ensures FlagIs(s, s.Skip(1).Flag(mask, on), mask, on)
  {
  }

  lemma SystemSteps(s: State, op: SystemOp, t: State)
    requires Decode(s.Fetch(s.pc)) == System(op) && t == Step(s)
    ensures t == ExecuteSystem(s, op)
  {
    hide Decode, ExecuteSystem;
  }

  /** CLC, SEC, CLI, SEI, CLD, SED and CLV. */
  lemma ChangesFlag(s: State, t: State)
    requires t == Step(s)
    ensures s.Fetch(s.pc) == 0x18 ==> FlagIs(s, t, P_CARRY, false)
    ensures s.Fetch(s.pc) == 0x38 ==> FlagIs(s, t, P_CARRY, true)
    ensures s.Fetch(s.pc) == 0x58 ==> FlagIs(s, t, P_INTERRUPT, false)
    ensures s.Fetch(s.pc) == 0x78 ==> FlagIs(s, t, P_INTERRUPT, true)
    ensures s.Fetch(s.pc) == 0xd8 ==> FlagIs(s, t, P_DECIMAL, false)
    ensures s.Fetch(s.pc) == 0xf8 ==> FlagIs(s, t, P_DECIMAL, true)
    ensures s.Fetch(s.pc) == 0xb8 ==> FlagIs(s, t, P_OVERFLOW, false)
  {
    hide Decode, Step, FlagIs, State.Flag, State.Skip;
    FlagOpcodes();
    DecimalOpcodes();
    var i := Decode(s.Fetch(s.pc));
    if i.System? && i.system.ChangeFlag? {
      SystemSteps(s, i.system, t);
      FlagSet(s, Mask(i.system.flag), i.system.on);
    }
  }

  lemma StatusOpcodes()
    ensures Decode(0xc2) == System(Rep) && Decode(0xe2) == System(Sep) && Decode(0xfb) == System(Xce)
  {
  }

  /** The bits REP and SEP can change: in emulation mode not the widths. */
  function Changeable(s: State): bv8 {
    if s.emul then !(P_M | P_X) else 0xff
  }

  lemma ChosenBits(p: bv8, bits: bv8, on: bool, emul: bool, q: bv8)
    requires q == StatusBits(p, bits, on, emul)
    ensures var m := bits & !(P_SIGN | P_ZERO) & (if emul then !(P_M | P_X) else 0xff);
            q == if on then p | m else p & !m
  {
    if on {
      if emul {
      }
    }
  }

  /** REP clears in the status byte the bits of its operand, SEP sets them; index registers that become
      narrow lose their high bytes. */
  lemma ChangesStatus(s: State, mask: bv8, t: State)
    requires Sane(s) && t == Step(s) && mask == s.Operand(1) as bv8
    ensures s.Fetch(s.pc) == 0xc2 ==> t.Status() == s.Status() & !(mask & Changeable(s))
    ensures s.Fetch(s.pc) == 0xe2 ==> t.Status() == s.Status() | (mask & Changeable(s))
    ensures s.Fetch(s.pc) == 0xc2 || s.Fetch(s.pc) == 0xe2 ==>
              && t == s.(p := t.p, n := t.n, z := t.z, x := t.x, y := t.y, pc := (s.pc + 2) % 0x10000)
              && t.x == (if t.X8() then Lo(s.x) else s.x) && t.y == (if t.X8() then Lo(s.y) else s.y)
  {
    hide Decode, Step, ChangeStatus, State.Operand;
    StatusOpcodes();
    if s.Fetch(s.pc) == 0xc2 {
      SystemSteps(s, Rep, t);
      StatusChanged(s, mask, false, t);
    } else if s.Fetch(s.pc) == 0xe2 {
      SystemSteps(s, Sep, t);
      StatusChanged(s, mask, true, t);
    }
  }

  /** The status byte of a state is its p with N and Z. */
  lemma StatusChanged(s: State, mask: bv8, on: bool, t: State)
    requires Sane(s) && t == ChangeStatus(s.Skip(2), mask, on)
    ensures t.Status() == if on then s.Status() | (mask & Changeable(s)) else s.Status() & !(mask & Changeable(s))
    ensures t == s.(p := t.p, n := t.n, z := t.z, x := t.x, y := t.y, pc := (s.pc + 2) % 0x10000)
    ensures t.x == (if t.X8() then Lo(s.x) else s.x) && t.y == (if t.X8() then Lo(s.y) else s.y)
  {
    var u := ChosenSignZero(s.Skip(2), mask, on).(p := StatusBits(s.p, mask, on, s.emul));
    StatusChosen(s, mask, on, u);
    IndexesNarrow(s, mask, on, u, t);
    hide StatusBits, State.Status, ChosenSignZero, Changeable, Sane;
    assert t == if on && mask & P_X != 0 && !s.emul then u.Narrow() else u;
    StatusKept(u, t);
  }

  lemma StatusKept(u: State, t: State)
    requires t == u || t == u.Narrow()
    ensures t.Status() == u.Status()
  {
  }

  lemma StatusChosen(s: State, mask: bv8, on: bool, u: State)
    requires Sane(s) && u == ChosenSignZero(s.Skip(2), mask, on).(p := StatusBits(s.p, mask, on, s.emul))
    ensures u.Status() == if on then s.Status() | (mask & Changeable(s)) else s.Status() & !(mask & Changeable(s))
  {
    hide StatusBits;
    ChosenBits(s.p, mask, on, s.emul, u.p);
    StatusParts(s.p, s.Sign(), s.Zero(), mask & Changeable(s), on, u.p);
  }

  lemma StatusParts(p: bv8, sign: bool, zero: bool, m: bv8, on: bool, q: bv8)
    requires p & (P_SIGN | P_ZERO) == 0
    requires var k := m & !(P_SIGN | P_ZERO); q == if on then p | k else p & !k
    ensures var b := p | (if sign then P_SIGN else 0) | (if zero then P_ZERO else 0);
            var sign' := if m & P_SIGN != 0 then on else sign;
            var zero' := if m & P_ZERO != 0 then on else zero;
            q | (if sign' then P_SIGN else 0) | (if zero' then P_ZERO else 0) == if on then b | m else b & !m
  {
  }

  lemma IndexesNarrow(s: State, mask: bv8, on: bool, u: State, t: State)
    requires Sane(s) && u == ChosenSignZero(s.Skip(2), mask, on).(p := StatusBits(s.p, mask, on, s.emul))
    requires t == if on && mask & P_X != 0 && !s.emul then u.Narrow() else u
    ensures t == s.(p := t.p, n := t.n, z := t.z, x := t.x, y := t.y, pc := (s.pc + 2) % 0x10000)
    ensures t.x == (if t.X8() then Lo(s.x) else s.x) && t.y == (if t.X8() then Lo(s.y) else s.y)
  {
    hide StatusBits;
    ChosenBits(s.p, mask, on, s.emul, u.p);
    assert s.X8() ==> Lo(s.x) == s.x && Lo(s.y) == s.y;
    hide Lo;
  }

  /** XCE swaps carry and emulation. Entering emulation mode the index registers lose their high bytes and the
      stack pointer goes to page 1; leaving it all registers become narrow. */
  lemma Exchanges(s: State, t: State)
    requires s.Fetch(s.pc) == 0xfb && t == Step(s)
    ensures t.emul == s.Has(P_CARRY) && t.Has(P_CARRY) == s.emul
    ensures t.emul && !s.emul ==> t.x == Lo(s.x) && t.y == Lo(s.y) && t.sp == 0x100 + Lo(s.sp)
    ensures !t.emul && s.emul ==> t.Has(P_M) && t.Has(P_X)
    ensures !(t.emul && !s.emul) ==> t.x == s.x && t.y == s.y && t.sp == s.sp
    ensures t == s.(emul := t.emul, p := t.p, x := t.x, y := t.y, sp := t.sp, pc := (s.pc + 1) % 0x10000)
  {
    hide Decode, Step, Lo;
    StatusOpcodes();
    SystemSteps(s, Xce, t);
  }

  lemma IdleOpcodes()
    ensures Decode(0xea) == System(Nop) && Decode(0x42) == System(Wdm) && Decode(0x02) == System(Halt)
    ensures Decode(0xcb) == System(Halt) && Decode(0xdb) == System(Halt)
  {
  }

  /** NOP and WDM do nothing; COP, WAI and STP, which are stubs, not even that. */
  lemma Idles(s: State, t: State)
    requires t == Step(s)
    ensures s.Fetch(s.pc) == 0xea ==> t == s.(pc := (s.pc + 1) % 0x10000)
    ensures s.Fetch(s.pc) == 0x42 ==> t == s.(pc := (s.pc + 2) % 0x10000)
    ensures s.Fetch(s.pc) == 0x02 || s.Fetch(s.pc) == 0xcb || s.Fetch(s.pc) == 0xdb ==> t == s
  {
    hide Decode, Step, ExecuteSystem;
    IdleOpcodes();
    var i := Decode(s.Fetch(s.pc));
    if i.System? {
      SystemSteps(s, i.system, t);
    }
    IdleSteps(s);
  }

  lemma IdleSteps(s: State)
    ensures ExecuteSystem(s, Nop) == s.(pc := (s.pc + 1) % 0x10000)
    ensures ExecuteSystem(s, Wdm) == s.(pc := (s.pc + 2) % 0x10000) && ExecuteSystem(s, Halt) == s
  {
    hide ChangeStatus, ExchangeEmulation;
  }

  // ----- on the stack

  lemma StatusStackOpcodes()
    ensures Decode(0x08) == Push(Php) && Decode(0x28) == Pull(Plp)
  {
  }

  /** The flags as they stand in a status byte: N, V, M, X, D, I, Z and C, from the top bit down, M and X set in
      emulation mode. */
  predicate ShowsFlags(b: bv8, s: State) {
    && (b & 0x80 != 0) == s.Sign() && (b & 0x40 != 0) == s.Has(P_OVERFLOW)
    && (s.emul || (b & 0x20 != 0) == s.M8()) && (s.emul || (b & 0x10 != 0) == s.X8())
    && (b & 0x08 != 0) == s.Has(P_DECIMAL) && (b & 0x04 != 0) == s.Has(P_INTERRUPT)
    && (b & 0x02 != 0) == s.Zero() && (b & 0x01 != 0) == s.Has(P_CARRY)
  }

  lemma StatusShows(s: State, b: bv8)
    requires Sane(s) && b == s.Status() | (if s.emul then 0x30 else 0)
    ensures ShowsFlags(b, s) && PushedStatus(s) == b as int && (s.emul ==> b & 0x30 == 0x30)
  {
  }

  /** PHP pushes the flags, */
  lemma PushesStatus(s: State, base: Word, bytes: seq<Byte>, t: State) returns (b: bv8)
    requires Sane(s) && s.Fetch(s.pc) == 0x08 && t == Step(s)
    requires Stacked(s, base, bytes) && |bytes| < Capacity(s.emul)
    ensures ShowsFlags(b, s) && (s.emul ==> b & 0x30 == 0x30)
    ensures Stacked(t, base, bytes + [b as int]) && t == s.(ram := t.ram, sp := t.sp, pc := (s.pc + 1) % 0x10000)
  {
    hide Decode, Sane, Stacked, State.Push, PushedStatus, ShowsFlags, State.Status;
    StatusStackOpcodes();
    b := s.Status() | (if s.emul then 0x30 else 0);
    StatusShows(s, b);
    var u := s.Skip(1);
    StackedSame(s, u, base, bytes);
    PushStacks(u, base, bytes, b as int);
    PushKeeps(u, b as int);
  }

  /** and PLP sets them from what it pulls, index registers that become narrow losing their high bytes. */
  lemma PullsStatus(s: State, base: Word, bytes: seq<Byte>, b: Byte, t: State)
    requires s.Fetch(s.pc) == 0x28 && t == Step(s) && Stacked(s, base, bytes + [b])
    ensures ShowsFlags(b as bv8, t) && Stacked(t, base, bytes)
    ensures t == s.(p := t.p, n := t.n, z := t.z, x := t.x, y := t.y, sp := t.sp, pc := (s.pc + 1) % 0x10000)
    ensures t.x == (if t.X8() then Lo(s.x) else s.x) && t.y == (if t.X8() then Lo(s.y) else s.y)
  {
    hide Decode, Step, Stacked, State.Top, State.Pulled, State.SetStatus, ShowsFlags, Lo;
    StatusStackOpcodes();
    var u := s.Skip(1);
    StackedSame(s, u, base, bytes + [b]);
    PushedByte(bytes, b);
    TakesOff(u, b, true, base, bytes, u.Pulled());
    StatusPull(s, t);
    StatusTaken(u.Pulled(), b, u.Pulled().SetStatus(b), t);
    StackedSame(u.Pulled(), t, base, bytes);
  }

  lemma StatusPull(s: State, t: State)
    requires Decode(s.Fetch(s.pc)) == Pull(Plp) && t == Step(s)
    ensures t == s.Skip(1).Pulled().SetStatus(s.Skip(1).Top()).Narrow()
  {
    hide Decode, State.SetStatus, State.Pulled, State.Top, State.Narrow;
  }

  lemma PushedByte(bytes: seq<Byte>, b: Byte)
    ensures Pushed(bytes, b, true) == bytes + [b]
  {
  }

  lemma TopOfByte(b: Byte)
    ensures (b as bv8) & 0x80 != 0 <==> b >= 0x80
  {
  }

  lemma FlagsTaken(w: State, b: Byte, k: bv8, u: State)
    requires u == w.SetStatus(b) && k == b as bv8
    ensures ShowsFlags(k, u) && u == w.(p := u.p, n := u.n, z := u.z)
  {
    TopOfByte(b);
  }

  lemma StatusTaken(w: State, b: Byte, u: State, t: State)
    requires u == w.SetStatus(b) && t == u.Narrow()
    ensures ShowsFlags(b as bv8, t) && t == w.(p := t.p, n := t.n, z := t.z, x := t.x, y := t.y)
    ensures t.x == (if t.X8() then Lo(w.x) else w.x) && t.y == (if t.X8() then Lo(w.y) else w.y)
  {
    hide Lo, State.SetStatus;
    FlagsTaken(w, b, b as bv8, u);
  }
}
