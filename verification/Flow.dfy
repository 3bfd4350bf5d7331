/** Where jumps, calls and interrupts lead, and what the status instructions change, opcode by opcode
    (emulator/65816core.c). */
module Flow {
  import opened Primitives
  import opened Machine
  import opened Instructions
  import opened Opcodes
  import opened Addressing
  import opened Widths

  // ----- jumps

  lemma JumpOpcodes()
    ensures Decode(0x4c) == Flow(Jmp) && Decode(0x6c) == Flow(JmpInd) && Decode(0x5c) == Flow(JmpLong)
    ensures Decode(0x7c) == Flow(JmpIndX) && Decode(0x82) == Flow(Brl)
  {
  }

  lemma FlowSteps(s: State, op: FlowOp, t: State)
    requires Decode(s.Fetch(s.pc)) == Flow(op) && t == Step(s)
    ensures t == ExecuteFlow(s, op)
  {
    hide Decode, ExecuteFlow;
  }

  /** A word or three bytes in bank 0, the address wrapping there. */
  lemma WordIs(s: State, v: nat)
    requires Operands16(s, v)
    ensures OperandWord(s) == v
  {
    WordParts(v);
  }

  /** JMP absolute and long go to the operand, BRL as far on from the next instruction. */
  lemma JumpsTo(s: State, v: nat, t: State)
    requires Operands16(s, v) && t == Step(s)
    ensures s.Fetch(s.pc) == 0x4c ==> t == s.(pc := v)
    ensures s.Fetch(s.pc) == 0x5c ==> t == s.(pc := v, pbr := s.Operand(3))
    ensures s.Fetch(s.pc) == 0x82 ==> t == s.(pc := (s.pc + 3 + v) % 0x10000)
  {
    hide Decode, Step, Operands16, OperandWord, State.Operand;
    JumpOpcodes();
    WordIs(s, v);
    if s.Fetch(s.pc) == 0x4c {
      FlowSteps(s, Jmp, t);
    } else if s.Fetch(s.pc) == 0x5c {
      FlowSteps(s, JmpLong, t);
    } else if s.Fetch(s.pc) == 0x82 {
      FlowSteps(s, Brl, t);
    }
  }

  lemma LongJumpOpcode()
    ensures Decode(0xdc) == Flow(JmpIndLong)
  {
  }

  lemma Bank0Pointer(s: State, v: nat, p: nat)
    requires v < 0x10000
    ensures Holds16(s, v, (v + 1) % 0x10000, p) ==> s.Load(v) + 0x100 * Bank0(s, v + 1) == p
    ensures Holds24(s, v, p) ==> s.Load(v) + 0x100 * Bank0(s, v + 1) == p % 0x10000 && Bank0(s, v + 2) == p / 0x10000
  {
    WordParts(p);
    LowWord(p);
    hide Lo, Hi;
  }

  lemma LowWord(p: nat)
    ensures Lo(p) + 0x100 * Hi(p) == p % 0x10000
  {
  }

  /** A jump through a table in the program bank goes where the pointer there leads. */
  lemma TableLeads(w: State, v: nat, p: nat, t: State)
    requires v < 0x10000 && p < 0x10000 && w.Fetch(w.pc) == Hi(v) && t == TableJump(w, Lo(v))
    requires var at := (v + w.x) % 0x10000; w.Fetch(at) == Lo(p) && w.Fetch((at + 1) % 0x10000) == Hi(p)
    ensures t == w.(pc := p)
  {
    WordParts(v);
    WordParts(p);
    hide Lo, Hi, State.Fetch;
  }

  lemma TableJumps(s: State, v: nat, p: nat, t: State)
    requires Operands16(s, v) && p < 0x10000 && t == ExecuteFlow(s, JmpIndX)
    requires var at := (v + s.x) % 0x10000; s.Fetch(at) == Lo(p) && s.Fetch((at + 1) % 0x10000) == Hi(p)
    ensures t == s.(pc := p)
  {
    hide TableJump, Lo, Hi, State.Load, State.FetchAddress;
    var w := s.Skip(2);
    SameFetch(s, w, (s.pc + 2) % 0x10000);
    SameFetch(s, w, (v + s.x) % 0x10000);
    SameFetch(s, w, ((v + s.x) % 0x10000 + 1) % 0x10000);
    TableLeads(w, v, p, t);
  }

  lemma SameFetch(s: State, w: State, at: nat)
    requires w.ram == s.ram && w.pbr == s.pbr
    ensures w.Fetch(at) == s.Fetch(at)
  {
  }

  /** The indirect forms go where a pointer in bank 0 leads, JMP (abs,X) where one in the program bank does. */
  lemma JumpsThrough(s: State, v: nat, p: nat, t: State)
    requires Operands16(s, v) && t == Step(s)
    ensures s.Fetch(s.pc) == 0x6c && Holds16(s, v, (v + 1) % 0x10000, p) ==> t == s.(pc := p)
    ensures s.Fetch(s.pc) == 0xdc && Holds24(s, v, p) ==> t == s.(pc := p % 0x10000, pbr := p / 0x10000)
    ensures var at := (v + s.x) % 0x10000;
            s.Fetch(s.pc) == 0x7c && p < 0x10000 && s.Fetch(at) == Lo(p) && s.Fetch((at + 1) % 0x10000) == Hi(p) ==>
              t == s.(pc := p)
  {
    hide Decode, Step, Holds16, Holds24, Bank0, State.Load, OperandWord, TableJump, State.FetchAddress, Lo, Hi;
    JumpOpcodes();
    LongJumpOpcode();
    WordIs(s, v);
    Bank0Pointer(s, v, p);
    if s.Fetch(s.pc) == 0x6c {
      FlowSteps(s, JmpInd, t);
    } else if s.Fetch(s.pc) == 0xdc {
      FlowSteps(s, JmpIndLong, t);
    } else if s.Fetch(s.pc) == 0x7c {
      FlowSteps(s, JmpIndX, t);
      var at := (v + s.x) % 0x10000;
      if p < 0x10000 && s.Fetch(at) == Lo(p) && s.Fetch((at + 1) % 0x10000) == Hi(p) {
        TableJumps(s, v, p, t);
      }
    }
  }

  // ----- calls, returns and interrupts

  lemma CallOpcodes()
    ensures Decode(0x20) == Flow(Jsr) && Decode(0xfc) == Flow(JsrIndX) && Decode(0x22) == Flow(JsrLong)
    ensures Decode(0x00) == Flow(Brk)
  {
  }

  lemma ReturnOpcodes()
    ensures Decode(0x60) == Flow(Rts) && Decode(0x6b) == Flow(Rtl) && Decode(0x40) == Flow(Rti)
  {
  }

  lemma PushMisses(s: State, v: Byte, a: nat)
    requires a % RAMSIZE != s.sp
    ensures var t := s.PushRaw(v); t.Load(a) == s.Load(a) && t.pc == s.pc && t.pbr == s.pbr
  {
  }

  lemma BankFetched(s: State)
    requires s.FetchAddress((s.pc + 3) % 0x10000) % RAMSIZE != s.sp
    ensures JumpSubroutineLong(s).pbr == s.Operand(3)
  {
    hide State.Load, PushWide, State.Store, OperandWord;
    var at := s.FetchAddress((s.pc + 3) % 0x10000);
    PushMisses(s.Skip(3), s.pbr, at);
    var t := s.Skip(3).PushRaw(s.pbr);
    assert t.pc == (s.pc + 3) % 0x10000 && t.FetchAddress(t.pc) == at && t.Fetch(t.pc) == s.Skip(3).Load(at);
    SameLoad(s, s.Skip(3), at);
    hide State.FetchAddress;
  }

  lemma SameLoad(s: State, t: State, a: nat)
    requires t.ram == s.ram
    ensures t.Load(a) == s.Load(a)
  {
  }

  /** JSR and JSL go to the operand, unless JSL has pushed its bank over the last byte of it. */
  lemma CallsTo(s: State, v: nat, t: State)
    requires Operands16(s, v) && t == Step(s)
    ensures s.Fetch(s.pc) == 0x20 ==> t == JumpSubroutine(s) && t.pc == v && t.pbr == s.pbr
    ensures s.Fetch(s.pc) == 0x22 ==> t == JumpSubroutineLong(s) && t.pc == v
    ensures s.Fetch(s.pc) == 0x22 && s.FetchAddress((s.pc + 3) % 0x10000) % RAMSIZE != s.sp ==> t.pbr == s.Operand(3)
  {
    hide Decode, Step, OperandWord, State.FetchAddress, Operands16;
    CallOpcodes();
    WordIs(s, v);
    if s.Fetch(s.pc) == 0x20 {
      FlowSteps(s, Jsr, t);
    } else if s.Fetch(s.pc) == 0x22 {
      FlowSteps(s, JsrLong, t);
      if s.FetchAddress((s.pc + 3) % 0x10000) % RAMSIZE != s.sp {
        BankFetched(s);
      }
    }
  }

  lemma TableCalls(s: State, w: State, u: State, v: nat, p: nat, t: State)
    requires w == PushWide(s.Skip(2), (s.pc + 2) % 0x10000) && t == TableJump(w, Lo(v)) && u == s.(ram := t.ram)
    requires v < 0x10000 && u.Operand(2) == Hi(v)
    requires p < 0x10000 && u.Fetch((v + s.x) % 0x10000) == Lo(p) &&
             u.Fetch(((v + s.x) % 0x10000 + 1) % 0x10000) == Hi(p)
    ensures t == w.(pc := p) && t.pbr == s.pbr
  {
    PushFrame(s.Skip(2), (s.pc + 2) % 0x10000);
    assert t.ram == w.ram;
    hide TableJump, Lo, Hi, State.Fetch, PushWide;
    SameFetch(u, w, (s.pc + 2) % 0x10000);
    SameFetch(u, w, (v + s.x) % 0x10000);
    SameFetch(u, w, ((v + s.x) % 0x10000 + 1) % 0x10000);
    TableLeads(w, v, p, t);
  }

  lemma PushFrame(s: State, v: int)
    ensures var w := PushWide(s, v); w == s.(ram := w.ram, sp := w.sp)
  {
  }

  /** JSR (abs,X) goes where a pointer in the program bank leads, read when the return address has been pushed. */
  lemma CallsThrough(s: State, u: State, v: nat, p: nat, t: State)
    requires s.Fetch(s.pc) == 0xfc && t == Step(s) && u == s.(ram := t.ram)
    requires v < 0x10000 && s.Operand(1) == Lo(v) && u.Operand(2) == Hi(v)
    requires p < 0x10000 && u.Fetch((v + s.x) % 0x10000) == Lo(p) &&
             u.Fetch(((v + s.x) % 0x10000 + 1) % 0x10000) == Hi(p)
    ensures t == JumpSubroutineIndexed(s) && t.pc == p && t.pbr == s.pbr
  {
    hide Decode, Step, TableJump, PushWide, Lo, Hi, State.Operand, State.FetchAddress;
    CallOpcodes();
    FlowSteps(s, JsrIndX, t);
    TableCalls(s, PushWide(s.Skip(2), (s.pc + 2) % 0x10000), u, v, p, t);
  }

  /** The returns are those that Frames speaks of. */
  lemma Returns(s: State, t: State)
    requires t == Step(s)
    ensures s.Fetch(s.pc) == 0x60 ==> t == Return(s)
    ensures s.Fetch(s.pc) == 0x6b ==> t == ReturnLong(s)
    ensures s.Fetch(s.pc) == 0x40 ==> t == ReturnFromInterrupt(s)
  {
    hide Decode, Step, Return, ReturnLong, ReturnFromInterrupt;
    ReturnOpcodes();
    if s.Fetch(s.pc) == 0x60 {
      FlowSteps(s, Rts, t);
    } else if s.Fetch(s.pc) == 0x6b {
      FlowSteps(s, Rtl, t);
    } else if s.Fetch(s.pc) == 0x40 {
      FlowSteps(s, Rti, t);
    }
  }

  lemma VectorTaken(s: State, vector: nat, t: State)
    requires t == Vectored(s, vector) && vector + 1 < 0x10000
    ensures t.pc == s.ram[vector] + 0x100 * (s.ram[vector + 1] as int) && t.pbr == 0
    ensures t.ram == s.ram && t.emul == s.emul && t.Has(P_INTERRUPT) && !t.Has(P_DECIMAL)
  {
  }

  lemma PushMode(s: State, v: int)
    ensures s.Push(v).emul == s.emul && s.PushWord(v).emul == s.emul
  {
  }

  lemma BreakLeads(s: State, t: State)
    requires t == Break(s)
    ensures t.pbr == 0 && t.Has(P_INTERRUPT) && !t.Has(P_DECIMAL) && t.emul == s.emul
    ensures t.pc == if s.emul then t.ram[0xfffe] + 0x100 * (t.ram[0xffff] as int)
            else t.ram[0xffe6] + 0x100 * (t.ram[0xffe7] as int)
  {
    hide State.Status, State.Push, State.PushWord, Vectored, State.Has;
    var u := s.Skip(2);
    if s.emul {
      var w := u.Flag(P_BREAK, true);
      PushMode(w, u.pc);
      PushMode(w.PushWord(u.pc), (w.PushWord(u.pc).Status() | P_UNUSED) as int);
      VectorTaken(w.PushWord(u.pc).Push((w.PushWord(u.pc).Status() | P_UNUSED) as int), 0xfffe, t);
    } else {
      PushMode(u, u.pbr);
      var w := u.Push(u.pbr);
      PushMode(w, u.pc);
      PushMode(w.PushWord(u.pc), w.PushWord(u.pc).Status() as int);
      VectorTaken(w.PushWord(u.pc).Push(w.PushWord(u.pc).Status() as int), 0xffe6, t);
    }
  }

  /** BRK goes through the vector of its mode in bank 0, with interrupts off and decimal mode left. */
  lemma Breaks(s: State, t: State)
    requires s.Fetch(s.pc) == 0x00 && t == Step(s)
    ensures t == Break(s) && t.pbr == 0 && t.Has(P_INTERRUPT) && !t.Has(P_DECIMAL) && t.emul == s.emul
    ensures t.pc == if s.emul then t.ram[0xfffe] + 0x100 * (t.ram[0xffff] as int)
            else t.ram[0xffe6] + 0x100 * (t.ram[0xffe7] as int)
  {
    hide Decode, Step, Break, State.Has;
    CallOpcodes();
    FlowSteps(s, Brk, t);
    BreakLeads(s, t);
  }

  // ----- whole words on the stack

  lemma WordPushOpcodes()
    ensures Decode(0x0b) == Push(Phd) && Decode(0xf4) == Push(Pea) && Decode(0xd4) == Push(Pei)
    ensures Decode(0x62) == Push(Per) && Decode(0x2b) == Pull(Pld)
  {
  }

  /** The word lies below the old pointer, high byte first, without the wrap of page 1; the pointer is two
      down, with it. */
  predicate WordPushed(s: State, t: State, v: int, length: nat) {
    && t == s.(ram := t.ram, sp := t.sp, pc := (s.pc + length) % 0x10000)
    && t.ram[s.sp] == Hi(v) && t.ram[(s.sp - 1) % 0x10000] == Lo(v)
    && t.sp == (if s.emul then 0x100 + (s.sp - 2) % 0x100 else (s.sp - 2) % 0x10000)
  }

  lemma TwoDown(sp: Word)
    ensures ((sp - 1) % 0x10000 - 1) % 0x100 == (sp - 2) % 0x100
    ensures ((sp - 1) % 0x10000 - 1) % 0x10000 == (sp - 2) % 0x10000 && (sp - 1) % 0x10000 != sp
  {
  }

  lemma WidePushes(s: State, v: int, k: nat)
    ensures WordPushed(s, PushWide(s.Skip(k), v), v, k)
  {
    TwoDown(s.sp);
    assert Lo(Hi(v)) == Hi(v) && Lo(Lo(v)) == Lo(v);
    hide Lo, Hi;
  }

  /** PHD pushes the direct page, PEA its operand, PER its operand as far on from the next instruction, and
      PEI the word in bank 0 that the operand leads to. */
  lemma PushesWords(s: State, v: nat, t: State)
    requires t == Step(s)
    ensures s.Fetch(s.pc) == 0x0b ==> WordPushed(s, t, s.dpr, 1)
    ensures s.Fetch(s.pc) == 0xf4 && Operands16(s, v) ==> WordPushed(s, t, v, 3)
    ensures s.Fetch(s.pc) == 0x62 && Operands16(s, v) ==> WordPushed(s, t, (s.pc + 3) % 0x10000 + v, 3)
    ensures var at := s.dpr + s.Operand(1);
            s.Fetch(s.pc) == 0xd4 && Holds16(s, at % 0x10000, (at + 1) % 0x10000, v) ==> WordPushed(s, t, v, 2)
  {
    hide Decode, PushWide, WordPushed, OperandWord, EffectiveWord, Operands16, Holds16, State.Operand;
    WordPushOpcodes();
    if s.Fetch(s.pc) == 0x0b {
      WidePushes(s, s.dpr, 1);
    } else if s.Fetch(s.pc) == 0xf4 && Operands16(s, v) {
      WordIs(s, v);
      WidePushes(s, v, 3);
    } else if s.Fetch(s.pc) == 0x62 && Operands16(s, v) {
      WordIs(s, v);
      WidePushes(s, (s.pc + 3) % 0x10000 + v, 3);
    } else if s.Fetch(s.pc) == 0xd4 {
      var at := s.dpr + s.Operand(1);
      if Holds16(s, at % 0x10000, (at + 1) % 0x10000, v) {
        EffectiveIs(s, at, v);
        WidePushes(s, v, 2);
      }
    }
  }

  lemma EffectiveIs(s: State, at: nat, v: nat)
    requires Holds16(s, at % 0x10000, (at + 1) % 0x10000, v)
    ensures EffectiveWord(s, at) == v && EffectiveWord(s.Skip(2), at) == v
  {
    WordParts(v);
    hide Lo, Hi;
  }

  /** PLD takes the next two bytes up, without the wrap of page 1, and shows them. */
  lemma PullsDirectPage(s: State, v: nat, t: State)
    requires s.Fetch(s.pc) == 0x2b && t == Step(s)
    requires Holds16(s, (s.sp + 1) % 0x10000, (s.sp + 2) % 0x10000, v)
    ensures t == s.(dpr := v, sp := t.sp, n := t.n, z := t.z, pc := (s.pc + 1) % 0x10000) && Shown(t, v, false)
    ensures t.sp == if s.emul then 0x100 + (s.sp + 2) % 0x100 else (s.sp + 2) % 0x10000
  {
    hide Decode, Step, PullDirect, Holds16, Shown;
    WordPushOpcodes();
    PullSteps(s, t);
    DirectPulled(s, v, t);
  }

  lemma PullSteps(s: State, t: State)
    requires Decode(s.Fetch(s.pc)) == Pull(Pld) && t == Step(s)
    ensures t == PullDirect(s.Skip(1))
  {
    hide Decode, PullDirect;
  }

  lemma DirectPulled(s: State, v: nat, t: State)
    requires t == PullDirect(s.Skip(1)) && Holds16(s, (s.sp + 1) % 0x10000, (s.sp + 2) % 0x10000, v)
    ensures t == s.(dpr := v, sp := t.sp, n := t.n, z := t.z, pc := (s.pc + 1) % 0x10000) && Shown(t, v, false)
    ensures t.sp == if s.emul then 0x100 + (s.sp + 2) % 0x100 else (s.sp + 2) % 0x10000
  {
    hide State.SetNZ;
    WordParts(v);
    var u := Rewrapped(s.Skip(1), s.sp + 2).(dpr := v);
    Shows(u, v, false, u.SetNZ(v, false));
    hide Lo, Hi, Shown;
  }
}
