/** What a branch finds out about the instruction before it (emulator/65816core.c). */
module Branches {
  import opened Primitives
  import opened Machine
  import opened Instructions
  import opened Opcodes
  import opened Modes
  import opened Access
  import opened Widths
  import opened Binary

  /** The next instruction is this branch, over d bytes from the one that follows. */
  predicate AtBranch(t: State, opcode: Byte, d: int) {
    t.Fetch(t.pc) == opcode && -0x80 <= d < 0x80 && t.Operand(1) == d % 0x100
  }

  /** It goes there if `taken`, else on, and does nothing more. */
  predicate Goes(t: State, u: State, d: int, taken: bool) {
    u == t.(pc := (t.pc + 2 + if taken then d else 0) % 0x10000)
  }

  lemma BranchOpcodes()
    ensures Decode(0x10) == Flow(Branch(Bpl)) && Decode(0x30) == Flow(Branch(Bmi))
    ensures Decode(0x50) == Flow(Branch(Bvc)) && Decode(0x70) == Flow(Branch(Bvs))
    ensures Decode(0x90) == Flow(Branch(Bcc)) && Decode(0xb0) == Flow(Branch(Bcs))
    ensures Decode(0xd0) == Flow(Branch(Bne)) && Decode(0xf0) == Flow(Branch(Beq))
    ensures Decode(0x80) == Flow(Branch(Always))
  {
  }

  lemma SignedOperand(d: int)
    requires -0x80 <= d < 0x80
    ensures SignedByte(d % 0x100) == d
  {
  }

  lemma BranchSteps(t: State, u: State, cond: Condition, d: int)
    requires Decode(t.Fetch(t.pc)) == Flow(Branch(cond)) && -0x80 <= d < 0x80 && t.Operand(1) == d % 0x100
    requires u == Step(t)
    ensures Goes(t, u, d, Holds(t, cond))
  {
    hide Decode, Holds;
    SignedOperand(d);
    hide SignedByte, State.Operand;
  }

  /** Each flag has a branch for either value. */
  lemma OnFlags(t: State, u: State, opcode: Byte, d: int)
    requires AtBranch(t, opcode, d) && u == Step(t)
    ensures opcode == 0x10 ==> Goes(t, u, d, !t.Sign())
    ensures opcode == 0x30 ==> Goes(t, u, d, t.Sign())
    ensures opcode == 0x50 ==> Goes(t, u, d, !t.Has(P_OVERFLOW))
    ensures opcode == 0x70 ==> Goes(t, u, d, t.Has(P_OVERFLOW))
    ensures opcode == 0x90 ==> Goes(t, u, d, !t.Has(P_CARRY))
    ensures opcode == 0xb0 ==> Goes(t, u, d, t.Has(P_CARRY))
    ensures opcode == 0xd0 ==> Goes(t, u, d, !t.Zero())
    ensures opcode == 0xf0 ==> Goes(t, u, d, t.Zero())
    ensures opcode == 0x80 ==> Goes(t, u, d, true)
  {
    hide Decode, Step, Goes, State.Operand, State.Has;
    BranchOpcodes();
    if Decode(opcode).Flow? && Decode(opcode).flow.Branch? {
      BranchSteps(t, u, Decode(opcode).flow.cond, d);
    }
  }

  // ----- after a comparison

  /** The next instruction compares r with v: CMP the accumulator, CPX and CPY an index register. */
  predicate Comparing(s: State, r: Word, v: Word, bits8: bool) {
    match Decode(s.Fetch(s.pc))
    case Alu(op, from) => op == Cmp && bits8 == s.M8() && r == s.Acc(bits8) && v == ReadSource(s, from, bits8)
    case Cp(i, from) => bits8 == s.X8() && r == (if i.X? then s.x else s.y) && v == ReadSource(s, from, bits8)
    case _ => false
  }

  lemma LongCut(v: int)
    ensures v % 0x1_0000_0000 % 0x10000 == v % 0x10000 && v % 0x1_0000_0000 % 0x100 == v % 0x100
  {
    var w, q := v % 0x1_0000_0000, v / 0x1_0000_0000;
    assert v == w + 0x10000 * (0x10000 * q) && v == w + 0x100 * (0x1000000 * q);
    WordsMore(w, 0x10000 * q);
    BytesMore(w, 0x1000000 * q);
  }

  lemma WordsMore(v: int, k: int)
    ensures (v + 0x10000 * k) % 0x10000 == v % 0x10000
  {
  }

  lemma BytesMore(v: int, k: int)
    ensures (v + 0x100 * k) % 0x100 == v % 0x100
  {
  }

  lemma Compared(s: State, r: Word, v: Word, bits8: bool, t: State)
    requires r < Size(bits8) && v < Size(bits8) && t == Compare(s, r, v, bits8)
    ensures Shown(t, Cut(r - v, bits8), bits8) && (t.Has(P_CARRY) <==> r >= v)
  {
    var diff := (r - v) % 0x1_0000_0000;
    CompareCarry(s, r, v, bits8);
    Shows(s.Flag(P_CARRY, diff < Size(bits8)), diff, bits8, t);
    LongCut(r - v);
    hide State.SetNZ, Shown, State.Has;
  }

  lemma ComparingFits(s: State, r: Word, v: Word, bits8: bool)
    requires Sane(s) && Comparing(s, r, v, bits8)
    ensures r < Size(bits8) && v < Size(bits8)
  {
    hide Decode, ReadSource;
  }

  lemma ComparingSteps(s: State, r: Word, v: Word, bits8: bool) returns (k: nat)
    requires Comparing(s, r, v, bits8)
    ensures Step(s) == Compare(s, r, v, bits8).Skip(k)
  {
    hide Decode, ReadSource, Compare, State.Skip, SourceLength;
    var from := match Decode(s.Fetch(s.pc)) case Alu(_, from) => from case Cp(_, from) => from;
    k := SourceLength(from, bits8);
  }

  /** BEQ is taken exactly when register and operand were equal, BCS when the register was at least the
      operand, BMI when their difference has its top bit set, and BNE, BCC and BPL exactly when not. */
  lemma AfterCompare(s: State, r: Word, v: Word, bits8: bool, t: State, u: State, opcode: Byte, d: int)
    requires Sane(s) && Comparing(s, r, v, bits8) && t == Step(s) && AtBranch(t, opcode, d) && u == Step(t)
    ensures opcode == 0xf0 ==> Goes(t, u, d, r == v)
    ensures opcode == 0xd0 ==> Goes(t, u, d, r != v)
    ensures opcode == 0xb0 ==> Goes(t, u, d, r >= v)
    ensures opcode == 0x90 ==> Goes(t, u, d, r < v)
    ensures opcode == 0x30 ==> Goes(t, u, d, (r - v) % Size(bits8) >= Half(bits8))
    ensures opcode == 0x10 ==> Goes(t, u, d, (r - v) % Size(bits8) < Half(bits8))
  {
    hide Step, Compare, Decode, Comparing, Sane, AtBranch, Goes;
    ComparingFits(s, r, v, bits8);
    var k := ComparingSteps(s, r, v, bits8);
    Compared(s, r, v, bits8, Compare(s, r, v, bits8));
    OnFlags(t, u, opcode, d);
    hide State.Sign, State.Zero;
  }

  // ----- after a result

  /** After anything that shows a value, BEQ asks whether it is 0 and BMI for its top bit. */
  lemma OnResult(t: State, v: Word, bits8: bool, u: State, opcode: Byte, d: int)
    requires Shown(t, v, bits8) && AtBranch(t, opcode, d) && u == Step(t)
    ensures opcode == 0xf0 ==> Goes(t, u, d, v == 0)
    ensures opcode == 0xd0 ==> Goes(t, u, d, v != 0)
    ensures opcode == 0x30 ==> Goes(t, u, d, v >= Half(bits8))
    ensures opcode == 0x10 ==> Goes(t, u, d, v < Half(bits8))
  {
    hide Step, AtBranch, Goes, State.Sign, State.Zero;
    OnFlags(t, u, opcode, d);
  }

  /** The next instruction loads v: LDA, LDX or LDY. */
  predicate Loading(s: State, v: Word, bits8: bool) {
    match Decode(s.Fetch(s.pc))
    case Alu(op, from) => op == Lda && bits8 == s.M8() && v == ReadSource(s, from, bits8)
    case Ld(_, from) => bits8 == s.X8() && v == ReadSource(s, from, bits8)
    case _ => false
  }

  lemma LoadSteps(s: State, v: Word, bits8: bool, t: State) returns (u: State)
    requires Loading(s, v, bits8) && t == Step(s)
    ensures t == u.SetNZ(v, bits8) && v < Size(bits8)
  {
    hide Decode, ReadSource, State.SetNZ, State.SetAcc, State.M8, Lo;
    match Decode(s.Fetch(s.pc))
    case Alu(_, from) =>
      var k := SourceLength(from, bits8);
      LogicalSkip(s, v, bits8, k);
      u := s.Skip(k).SetAcc(v, bits8);
    case Ld(r, from) =>
      var k := SourceLength(from, bits8);
      IndexSkip(s, r, v, k);
      IndexLoads(s.Skip(k), r, v, bits8);
      u := SetIndex(s.Skip(k), r, v);
  }

  lemma IndexLoads(s: State, r: Index, v: Word, bits8: bool)
    requires bits8 == s.X8() && v < Size(bits8)
    ensures LoadIndex(s, r, v) == SetIndex(s, r, v).SetNZ(v, bits8)
  {
    hide State.SetNZ, State.X8;
  }

  lemma AfterLoad(s: State, v: Word, bits8: bool, t: State, u: State, opcode: Byte, d: int)
    requires Loading(s, v, bits8) && t == Step(s) && AtBranch(t, opcode, d) && u == Step(t)
    ensures opcode == 0xf0 ==> Goes(t, u, d, v == 0)
    ensures opcode == 0xd0 ==> Goes(t, u, d, v != 0)
    ensures opcode == 0x30 ==> Goes(t, u, d, v >= Half(bits8))
    ensures opcode == 0x10 ==> Goes(t, u, d, v < Half(bits8))
  {
    hide Step, Loading, Shown, AtBranch, Goes, State.SetNZ;
    var w := LoadSteps(s, v, bits8, t);
    Shows(w, v, bits8, t);
    OnResult(t, v, bits8, u, opcode, d);
  }

  // ----- after an addition or subtraction

  /** BVS is taken exactly when the signed sum does not fit, BCS when the unsigned one does not. */
  lemma AfterAdd(s: State, t: State, u: State, opcode: Byte, d: int)
    requires Runs(s, Adc) && t == Step(s) && AtBranch(t, opcode, d) && u == Step(t)
    ensures var a, v, bits8 := s.Acc(s.M8()), Operand(s), s.M8();
            var sum, signed := a + v + s.Carry(), Signed(a, bits8) + Signed(v, bits8) + s.Carry();
            && (opcode == 0x70 ==> Goes(t, u, d, !InSignedRange(signed, bits8)))
            && (opcode == 0x50 ==> Goes(t, u, d, InSignedRange(signed, bits8)))
            && (opcode == 0xb0 ==> Goes(t, u, d, sum >= Size(bits8)))
            && (opcode == 0x90 ==> Goes(t, u, d, sum < Size(bits8)))
            && (opcode == 0xf0 ==> Goes(t, u, d, Cut(sum, bits8) == 0))
            && (opcode == 0x30 ==> Goes(t, u, d, Cut(sum, bits8) >= Half(bits8)))
  {
    hide Step, Runs, AtBranch, Goes, Signed, InSignedRange, State.Has;
    Adds(s, Operand(s), t);
    hide Operand;
    OnFlags(t, u, opcode, d);
  }

  /** BVS is taken exactly when the signed difference does not fit, BCC when something was borrowed. */
  lemma AfterSubtract(s: State, t: State, u: State, opcode: Byte, d: int)
    requires Runs(s, Sbc) && t == Step(s) && AtBranch(t, opcode, d) && u == Step(t)
    ensures var a, v, bits8, borrow := s.Acc(s.M8()), Operand(s), s.M8(), 1 - s.Carry();
            && (opcode == 0x70 ==> Goes(t, u, d, !InSignedRange(Signed(a, bits8) - Signed(v, bits8) - borrow, bits8)))
            && (opcode == 0x50 ==> Goes(t, u, d, InSignedRange(Signed(a, bits8) - Signed(v, bits8) - borrow, bits8)))
            && (opcode == 0xb0 ==> Goes(t, u, d, a >= v + borrow))
            && (opcode == 0x90 ==> Goes(t, u, d, a < v + borrow))
            && (opcode == 0xf0 ==> Goes(t, u, d, Cut(a - v - borrow, bits8) == 0))
            && (opcode == 0x30 ==> Goes(t, u, d, Cut(a - v - borrow, bits8) >= Half(bits8)))
  {
    hide Step, Runs, AtBranch, Goes, Signed, InSignedRange, State.Has;
    Subtracts(s, Operand(s), t);
    hide Operand;
    OnFlags(t, u, opcode, d);
  }

  // ----- a loop

  /** DEX or DEY, and BNE back to it. */
  predicate CountingLoop(s: State, r: Index) {
    && s.Fetch(s.pc) == (if r.X? then 0xca else 0x88)
    && s.Operand(1) == 0xd0 && s.Operand(2) == 0xfd
  }

  /** The loop register, and N and Z, elsewhere in the loop or after it. */
  function Counted(s: State, r: Index, v: Word, pc: nat): State {
    (if r.X? then s.(x := v, pc := pc) else s.(y := v, pc := pc)).SetNZ(v, s.X8())
  }

  lemma DecrementOpcodes()
    ensures Decode(0xca) == StepIndex(X, false) && Decode(0x88) == StepIndex(Y, false)
  {
  }

  lemma StepsDown(s: State, r: Index)
    requires CountingLoop(s, r)
    ensures Step(s) == LoadIndex(s.Skip(1), r, (GetIndex(s, r) - 1) % 0x10000)
  {
    hide Decode, LoadIndex, State.Skip, State.Operand;
    DecrementOpcodes();
  }

  lemma LoadCounts(s: State, r: Index, w: Word)
    ensures LoadIndex(s.Skip(1), r, w) == Counted(s, r, if s.X8() then Lo(w) else w, (s.pc + 1) % 0x10000)
  {
    assert s.Skip(1).X8() == s.X8();
    hide BitOr, Lo, Hi, State.X8;
  }

  lemma LowOfWord(v: int)
    ensures Lo(v % 0x10000) == v % 0x100
  {
    BytesMore(v % 0x10000, 0x100 * (v / 0x10000));
  }

  lemma Decrements(s: State, r: Index, v: Word, t: State)
    requires CountingLoop(s, r) && t == Step(s) && v == Cut(GetIndex(s, r) - 1, s.X8())
    ensures t == Counted(s, r, v, (s.pc + 1) % 0x10000)
  {
    hide Step, Counted, CountingLoop, GetIndex, LoadIndex, State.X8;
    StepsDown(s, r);
    LoadCounts(s, r, (GetIndex(s, r) - 1) % 0x10000);
    LowOfWord(GetIndex(s, r) - 1);
  }

  lemma PcTwice(pc: nat)
    ensures ((pc + 1) % 0x10000 + 1) % 0x10000 == (pc + 2) % 0x10000
  {
    assert (pc + 1) % 0x10000 == pc + 1 - 0x10000 * ((pc + 1) / 0x10000);
    WordsMore((pc + 1) % 0x10000 + 1, (pc + 1) / 0x10000);
  }

  /** The next byte of the program is the operand of the instruction before it. */
  lemma NextByte(s: State, t: State)
    requires t.ram == s.ram && t.pbr == s.pbr && t.pc == (s.pc + 1) % 0x10000
    ensures t.Fetch(t.pc) == s.Operand(1) && t.Operand(1) == s.Operand(2)
  {
    PcTwice(s.pc);
  }

  lemma CountedKeeps(s: State, r: Index, v: Word, pc: nat, t: State)
    requires t == Counted(s, r, v, pc)
    ensures t.ram == s.ram && t.pbr == s.pbr && t.pc == pc && t.X8() == s.X8() && GetIndex(t, r) == v
  {
    hide BitOr, Lo, Hi;
  }

  lemma CountedSane(s: State, r: Index, v: Word, pc: nat, t: State)
    requires t == Counted(s, r, v, pc) && Sane(s) && v < Size(s.X8()) && pc < 0x10000
    ensures Sane(t)
  {
    hide BitOr, Lo, Hi;
  }

  lemma CountedShows(s: State, r: Index, v: Word, pc: nat, t: State)
    requires t == Counted(s, r, v, pc) && v < Size(s.X8())
    ensures Shown(t, v, s.X8())
  {
    hide State.SetNZ, Shown, State.X8;
    Shows(if r.X? then s.(x := v, pc := pc) else s.(y := v, pc := pc), v, s.X8(), t);
  }

  lemma CountedAgain(s: State, r: Index, v: Word, pc: nat, w: Word, pc': nat)
    ensures Counted(Counted(s, r, v, pc), r, w, pc') == Counted(s, r, w, pc')
    ensures Counted(s, r, v, pc).(pc := pc') == Counted(s, r, v, pc')
  {
    hide BitOr, Lo, Hi;
  }

  /** Once round: back to the start unless the register came to 0. */
  lemma Round(s: State, r: Index, v: Word, u: State, t: State)
    requires s.pc < 0x10000 && CountingLoop(s, r) && v == Cut(GetIndex(s, r) - 1, s.X8())
    requires u == Step(s) && t == Step(u)
    ensures t == Counted(s, r, v, if v == 0 then (s.pc + 3) % 0x10000 else s.pc)
  {
    hide Step, Counted, GetIndex, State.Fetch, State.Operand, State.X8, Shown;
    Decrements(s, r, v, u);
    CountedKeeps(s, r, v, (s.pc + 1) % 0x10000, u);
    CountedShows(s, r, v, (s.pc + 1) % 0x10000, u);
    NextByte(s, u);
    OnResult(u, v, s.X8(), t, 0xd0, -3);
    RoundEnds(s.pc);
    CountedAgain(s, r, v, (s.pc + 1) % 0x10000, v, if v == 0 then (s.pc + 3) % 0x10000 else s.pc);
  }

  lemma RoundEnds(pc: nat)
    requires pc < 0x10000
    ensures ((pc + 1) % 0x10000 + 2 - 3) % 0x10000 == pc && ((pc + 1) % 0x10000 + 2) % 0x10000 == (pc + 3) % 0x10000
  {
  }

  lemma StillLoop(s: State, r: Index, t: State)
    requires CountingLoop(s, r) && t.ram == s.ram && t.pbr == s.pbr && t.pc == s.pc
    ensures CountingLoop(t, r)
  {
  }

  lemma RunTwo(s: State, u: State, t: State, n: nat)
    requires u == Step(s) && t == Step(u)
    ensures Run(s, n + 2) == Run(t, n) && Run(t, 0) == t
  {
    hide Step;
    RunOn(s, u, n + 2);
    RunOn(u, t, n + 1);
  }

  /** The loop goes round as often as the register says, a register of 0 counting as full, and changes
      nothing but the register, N and Z. */
  lemma {:induction false} CountsDown(s: State, r: Index, rounds: nat)
    requires Sane(s) && CountingLoop(s, r)
    requires rounds == if GetIndex(s, r) == 0 then Size(s.X8()) else GetIndex(s, r)
    ensures Run(s, 2 * rounds) == Counted(s, r, 0, (s.pc + 3) % 0x10000)
    decreases rounds
  {
    hide Step, Run, Counted, CountingLoop, GetIndex, State.X8, Sane;
    RegisterFits(s, r);
    var v := Cut(GetIndex(s, r) - 1, s.X8());
    var u := Step(s);
    var t := Step(u);
    Round(s, r, v, u, t);
    RunTwo(s, u, t, 2 * rounds - 2);
    if v != 0 {
      CountedKeeps(s, r, v, s.pc, t);
      CountedSane(s, r, v, s.pc, t);
      StillLoop(s, r, t);
      CountsDown(t, r, rounds - 1);
      CountedAgain(s, r, v, s.pc, 0, (s.pc + 3) % 0x10000);
    }
  }

  lemma RegisterFits(s: State, r: Index)
    requires Sane(s)
    ensures GetIndex(s, r) < Size(s.X8()) && s.pc < 0x10000
  {
  }
}
