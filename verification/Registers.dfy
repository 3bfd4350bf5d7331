/** What moves between registers, memory and the stack, opcode by opcode (emulator/65816core.c). */
module Registers {
  import opened Primitives
  import opened Machine
  import opened Instructions
  import opened Opcodes
  import opened Modes
  import opened Widths
  import opened Binary
  import opened Access
  import opened Stack
  import opened Frames

  // ----- the index registers

  /** The register has this value, shown in N and Z, and nothing else changed but the program counter. */
  predicate IndexIs(s: State, t: State, r: Index, v: Word) {
    && GetIndex(t, r) == v && Shown(t, v, s.X8())
    && t == (if r.X? then s.(x := t.x, n := t.n, z := t.z, pc := t.pc)
      else s.(y := t.y, n := t.n, z := t.z, pc := t.pc))
  }

  lemma IndexSets(s: State, r: Index, w: Word, v: Word)
    requires v == Cut(w, s.X8())
    ensures IndexIs(s, LoadIndex(s, r, w), r, v) && LoadIndex(s, r, w).pc == s.pc
  {
    hide State.SetNZ, State.X8;
    Shows(SetIndex(s, r, v), v, s.X8(), SetIndex(s, r, v).SetNZ(v, s.X8()));
  }

  lemma IndexOpcodes()
    ensures Decode(0xe8) == StepIndex(X, true) && Decode(0xc8) == StepIndex(Y, true)
    ensures Decode(0xca) == StepIndex(X, false) && Decode(0x88) == StepIndex(Y, false)
  {
  }

  /** INX, INY, DEX and DEY: one more or less, modulo the width of the index registers. */
  lemma StepsIndex(s: State, r: Index, up: bool, t: State)
    requires s.Fetch(s.pc) == (if up then if r.X? then 0xe8 else 0xc8 else if r.X? then 0xca else 0x88) && t == Step(s)
    ensures IndexIs(s, t, r, Cut(GetIndex(s, r) + if up then 1 else -1, s.X8())) && t.pc == (s.pc + 1) % 0x10000
  {
    hide Decode, LoadIndex, IndexIs, Cut, State.X8, Shown;
    IndexOpcodes();
    var v := GetIndex(s, r) + if up then 1 else -1;
    WordCut(v, s.X8());
    var u := s.Skip(1);
    SkipKeeps(s, 1);
    IndexSets(u, r, v % 0x10000, Cut(v, s.X8()));
    IndexFrom(s, u, t, r, Cut(v, s.X8()));
  }

  lemma SkipKeeps(s: State, k: nat)
    ensures s.Skip(k).X8() == s.X8() && s.Skip(k).M8() == s.M8()
  {
  }

  lemma IndexFrom(s: State, u: State, t: State, r: Index, v: Word)
    requires u == s.(pc := u.pc) && IndexIs(u, t, r, v)
    ensures IndexIs(s, t, r, v)
  {
    hide Shown;
  }

  lemma WordCut(v: int, bits8: bool)
    ensures Cut(v % 0x10000, bits8) == Cut(v, bits8)
  {
    var q := v / 0x10000;
    assert v == v % 0x10000 + 0x100 * (0x100 * q);
    LowCut(v % 0x10000, 0x100 * q);
  }

  lemma LowCut(v: int, k: int)
    ensures (v + 0x100 * k) % 0x100 == v % 0x100
  {
  }

  /** LDX and LDY. */
  lemma LoadsIndex(s: State, r: Index, from: Source, t: State)
    requires Decode(s.Fetch(s.pc)) == Ld(r, from) && t == Step(s)
    ensures IndexIs(s, t, r, ReadSource(s, from, s.X8()))
  {
    hide Decode, LoadIndex, IndexIs, State.X8, ReadSource, State.Skip;
    var v := ReadSource(s, from, s.X8());
    IndexSets(s, r, v, v);
    IndexMoved(s, LoadIndex(s, r, v), r, v, SourceLength(from, s.X8()));
  }

  lemma IndexMoved(s: State, t: State, r: Index, v: Word, k: nat)
    requires IndexIs(s, t, r, v)
    ensures IndexIs(s, t.Skip(k), r, v)
  {
  }

  // ----- transfers

  /** Nothing changed but one register, N, Z and the program counter, which is at the next instruction. */
  predicate OnlyAccumulator(s: State, t: State) {
    t == s.(c := t.c, n := t.n, z := t.z, pc := (s.pc + 1) % 0x10000)
  }

  predicate OnlyStackPointer(s: State, t: State) {
    t == s.(sp := t.sp, pc := (s.pc + 1) % 0x10000)
  }

  lemma TransferSteps(s: State, transfer: Transfer, t: State)
    requires Decode(s.Fetch(s.pc)) == Copy(transfer) && t == Step(s)
    ensures t == CopyRegister(s.Skip(1), transfer)
  {
    hide Decode, CopyRegister, State.Skip;
  }

  lemma TransferOpcodes()
    ensures Decode(0x8a) == Copy(Txa) && Decode(0x98) == Copy(Tya) && Decode(0x9a) == Copy(Txs)
    ensures Decode(0x9b) == Copy(Txy) && Decode(0xbb) == Copy(Tyx)
  {
  }

  lemma ToIndexOpcodes()
    ensures Decode(0xaa) == Copy(Tax) && Decode(0xa8) == Copy(Tay) && Decode(0xba) == Copy(Tsx)
  {
  }

  lemma WideTransferOpcodes()
    ensures Decode(0x5b) == Copy(Tcd) && Decode(0x7b) == Copy(Tdc) && Decode(0x1b) == Copy(Tcs)
    ensures Decode(0x3b) == Copy(Tsc) && Decode(0xeb) == Copy(Xba)
  {
  }

  /** TAX, TAY and TSX: as much as the index registers hold. */
  lemma ToIndex(s: State, t: State)
    requires t == Step(s)
    ensures s.Fetch(s.pc) == 0xaa ==> IndexIs(s, t, X, Cut(s.c, s.X8())) && t.pc == (s.pc + 1) % 0x10000
    ensures s.Fetch(s.pc) == 0xa8 ==> IndexIs(s, t, Y, Cut(s.c, s.X8())) && t.pc == (s.pc + 1) % 0x10000
    ensures s.Fetch(s.pc) == 0xba ==> IndexIs(s, t, X, Cut(s.sp, s.X8())) && t.pc == (s.pc + 1) % 0x10000
  {
    hide Decode, Step, LoadIndex, IndexIs, Cut, State.X8;
    ToIndexOpcodes();
    var u := s.Skip(1);
    SkipKeeps(s, 1);
    if s.Fetch(s.pc) == 0xaa {
      TransferSteps(s, Tax, t);
      IndexSets(u, X, s.c, Cut(s.c, s.X8()));
      IndexFrom(s, u, t, X, Cut(s.c, s.X8()));
    } else if s.Fetch(s.pc) == 0xa8 {
      TransferSteps(s, Tay, t);
      IndexSets(u, Y, s.c, Cut(s.c, s.X8()));
      IndexFrom(s, u, t, Y, Cut(s.c, s.X8()));
    } else if s.Fetch(s.pc) == 0xba {
      TransferSteps(s, Tsx, t);
      IndexSets(u, X, s.sp, Cut(s.sp, s.X8()));
      IndexFrom(s, u, t, X, Cut(s.sp, s.X8()));
    }
  }

  /** TXA and TYA: as much as the accumulator holds, its other half staying. */
  lemma ToAccumulator(s: State, t: State)
    requires t == Step(s) && (s.Fetch(s.pc) == 0x8a || s.Fetch(s.pc) == 0x98)
    ensures var v := Cut(if s.Fetch(s.pc) == 0x8a then s.x else s.y, s.M8());
            OnlyAccumulator(s, t) && t.Acc(s.M8()) == v && Shown(t, v, s.M8()) && (s.M8() ==> Hi(t.c) == Hi(s.c))
  {
    hide Decode, Step, State.SetNZ, State.M8;
    TransferOpcodes();
    var u, from := s.Skip(1), if s.Fetch(s.pc) == 0x8a then s.x else s.y;
    SkipKeeps(s, 1);
    TransferSteps(s, if s.Fetch(s.pc) == 0x8a then Txa else Tya, t);
    AccumulatorSet(u, from, s.M8());
    Shows(u.SetAcc(from, s.M8()), from, s.M8(), t);
    hide Shown, Cut;
  }

  /** TXY and TYX keep the width; TXS leaves N and Z alone and in emulation mode stays in page 1. */
  lemma BetweenIndexes(s: State, t: State)
    requires Sane(s) && t == Step(s)
    ensures s.Fetch(s.pc) == 0x9b ==> IndexIs(s, t, Y, s.x) && t.pc == (s.pc + 1) % 0x10000
    ensures s.Fetch(s.pc) == 0xbb ==> IndexIs(s, t, X, s.y) && t.pc == (s.pc + 1) % 0x10000
    ensures s.Fetch(s.pc) == 0x9a ==> OnlyStackPointer(s, t) && t.sp == if s.emul then 0x100 + s.x else s.x
  {
    hide Decode, Step, State.SetNZ, State.X8;
    TransferOpcodes();
    var u := s.Skip(1);
    SkipKeeps(s, 1);
    IndexesFit(s);
    if s.Fetch(s.pc) == 0x9b {
      TransferSteps(s, Txy, t);
      Shows(u.(y := s.x), s.x, s.X8(), t);
    } else if s.Fetch(s.pc) == 0xbb {
      TransferSteps(s, Tyx, t);
      Shows(u.(x := s.y), s.y, s.X8(), t);
    } else if s.Fetch(s.pc) == 0x9a {
      TransferSteps(s, Txs, t);
      NoPageBit(s);
    }
  }

  lemma IndexesFit(s: State)
    requires Sane(s)
    ensures Cut(s.x, s.X8()) == s.x && Cut(s.y, s.X8()) == s.y
  {
  }

  lemma NoPageBit(s: State)
    requires Sane(s)
    ensures s.emul ==> !BitSet(s.x, 0x100)
  {
  }

  /** TCD and TDC take all of the accumulator, whatever its width. */
  lemma DirectTransfers(s: State, t: State)
    requires t == Step(s)
    ensures s.Fetch(s.pc) == 0x5b ==> t == s.(dpr := s.c, n := t.n, z := t.z, pc := (s.pc + 1) % 0x10000) &&
                                      Shown(t, s.c, false)
    ensures s.Fetch(s.pc) == 0x7b ==> OnlyAccumulator(s, t) && t.c == s.dpr && Shown(t, s.dpr, false)
  {
    hide Decode, Step, State.SetNZ;
    WideTransferOpcodes();
    if s.Fetch(s.pc) == 0x5b {
      TransferSteps(s, Tcd, t);
      Shows(s.Skip(1).(dpr := s.c), s.c, false, t);
    } else if s.Fetch(s.pc) == 0x7b {
      TransferSteps(s, Tdc, t);
      Shows(s.Skip(1).(c := s.dpr), s.dpr, false, t);
    }
  }

  /** So do TSC and TCS, which leaves N and Z alone and in emulation mode stays in page 1. */
  lemma PointerTransfers(s: State, t: State)
    requires t == Step(s)
    ensures s.Fetch(s.pc) == 0x3b ==> OnlyAccumulator(s, t) && t.c == s.sp && Shown(t, s.sp, false)
    ensures s.Fetch(s.pc) == 0x1b ==> OnlyStackPointer(s, t) && t.sp == if s.emul then 0x100 + Lo(s.c) else s.c
  {
    hide Decode, Step, State.SetNZ, Lo;
    WideTransferOpcodes();
    if s.Fetch(s.pc) == 0x3b {
      TransferSteps(s, Tsc, t);
      Shows(s.Skip(1).(c := s.sp), s.sp, false, t);
    } else if s.Fetch(s.pc) == 0x1b {
      TransferSteps(s, Tcs, t);
    }
  }

  /** XBA. */
  lemma Swaps(s: State, t: State)
    requires t == Step(s) && s.Fetch(s.pc) == 0xeb
    ensures t == s.(c := 0x100 * Lo(s.c) + Hi(s.c), pc := (s.pc + 1) % 0x10000)
  {
    hide Decode, Step, Lo, Hi;
    WideTransferOpcodes();
    TransferSteps(s, Xba, t);
  }

  /** One transfer and then the one back, from s over t to u. */
  ghost predicate ThereAndBack(s: State, t: State, u: State, there: Byte, back: Byte) {
    Sane(s) && s.Fetch(s.pc) == there && t == Step(s) && t.Fetch(t.pc) == back && u == Step(t)
  }

  lemma SameModes(s: State, t: State)
    requires t.emul == s.emul && t.p == s.p
    ensures t.M8() == s.M8() && t.X8() == s.X8()
  {
  }

  /** Which pairs of transfers give back what they took, and exactly when: through an index register. */
  lemma IndexReturns(s: State, t: State, u: State)
    requires ThereAndBack(s, t, u, 0xaa, 0x8a) || ThereAndBack(s, t, u, 0xa8, 0x98)
    ensures u.c == s.c <==> s.M8() || !s.X8() || s.c < 0x100
  {
    hide Step, State.M8, State.X8, Shown, Sane;
    ToIndex(s, t);
    ToAccumulator(t, u);
    SameModes(s, t);
    CutTwice(s.c, u.c, s.X8(), s.M8());
    hide Cut, Hi;
  }

  lemma CutTwice(c: Word, d: Word, narrow: bool, bits8: bool)
    requires (if bits8 then Lo(d) else d) == Cut(Cut(c, narrow), bits8) && (bits8 ==> Hi(d) == Hi(c))
    ensures d == c <==> bits8 || !narrow || c < 0x100
  {
    WordOf(c);
    WordOf(d);
    if bits8 {
      LowCut(Lo(c), Hi(c));
    }
    hide Hi;
  }

  /** The stack pointer through X. */
  lemma PointerReturns(s: State, t: State, u: State)
    requires ThereAndBack(s, t, u, 0xba, 0x9a)
    ensures u.sp == s.sp <==> s.emul || !s.X8() || s.sp < 0x100
  {
    hide Step, Shown;
    ToIndex(s, t);
    IndexKeepsSane(s, t);
    BetweenIndexes(t, u);
  }

  lemma IndexKeepsSane(s: State, t: State)
    requires Sane(s) && IndexIs(s, t, X, Cut(s.sp, s.X8())) && t.pc == (s.pc + 1) % 0x10000
    ensures Sane(t)
  {
    hide Shown;
  }

  /** X through Y. */
  lemma IndexesReturn(s: State, t: State, u: State)
    requires ThereAndBack(s, t, u, 0x9b, 0xbb)
    ensures u.x == u.y == s.x
  {
    hide Step, Shown;
    BetweenIndexes(s, t);
    assert Sane(t);
    BetweenIndexes(t, u);
  }

  /** All of the accumulator through the stack pointer. */
  lemma AccumulatorReturns(s: State, t: State, u: State)
    requires ThereAndBack(s, t, u, 0x1b, 0x3b)
    ensures u.c == s.c <==> !s.emul || Hi(s.c) == 1
  {
    hide Step, Shown, Sane, Lo, Hi;
    PointerTransfers(s, t);
    PointerTransfers(t, u);
    WordOf(s.c);
  }

  /** And through the direct page, and swapped twice. */
  lemma AlwaysReturns(s: State, t: State, u: State)
    requires ThereAndBack(s, t, u, 0x5b, 0x7b) || ThereAndBack(s, t, u, 0xeb, 0xeb)
    ensures u.c == s.c
  {
    hide Step, Shown, Sane, Lo, Hi;
    if s.Fetch(s.pc) == 0x5b {
      DirectTransfers(s, t);
      DirectTransfers(t, u);
    } else {
      Swaps(s, t);
      Swaps(t, u);
      WordOf(s.c);
      NewLow(Lo(s.c), Hi(s.c));
    }
  }

  // ----- memory

  /** The byte or word at an address; in the direct page and relative to the stack a word stays in bank 0,
      elsewhere it goes on into the next bank. */
  function DataAt(s: State, m: Mode, ea: nat, bits8: bool): Word {
    var next := if m.Dp? || m.DpX? || m.DpY? || m.StackRel? then (ea + 1) % 0x10000 else (ea + 1) % 0x1000000;
    s.ram[ea % RAMSIZE] + if bits8 then 0 else 0x100 * (s.ram[next % RAMSIZE] as int)
  }

  lemma ReadsData(s: State, m: Mode, ea: nat, bits8: bool)
    ensures ReadAt(s, m, ea, bits8) == DataAt(s, m, ea, bits8)
  {
  }

  /** What an instruction reads: the data at the address of its mode, or the bytes after its opcode. */
  lemma OperandData(s: State, from: Source, bits8: bool)
    ensures ReadSource(s, from, bits8) ==
            match from
            case Mem(m) => DataAt(s, m, EffectiveAddress(s, m), bits8)
            case Imm => s.Operand(1) + if bits8 then 0 else 0x100 * s.Operand(2)
  {
    hide EffectiveAddress, State.Operand, ReadAt, DataAt;
    match from
    case Mem(m) => ReadsData(s, m, EffectiveAddress(s, m), bits8);
    case Imm =>
  }

  /** What is stored, and how wide. */
  predicate Storing(s: State, what: Stored, v: Word, bits8: bool) {
    match what
    case FromC => v == s.c && bits8 == s.M8()
    case FromX => v == s.x && bits8 == s.X8()
    case FromY => v == s.y && bits8 == s.X8()
    case FromZero => v == 0 && bits8 == s.M8()
  }

  /** STA, STX, STY and STZ put as much of their register as its width says at the address, and nothing
      anywhere else. */
  lemma Stores(s: State, what: Stored, m: Mode, v: Word, bits8: bool, ea: nat, t: State, a: nat)
    requires Decode(s.Fetch(s.pc)) == Write(what, m) && t == Step(s)
    requires Storing(s, what, v, bits8) && ea == EffectiveAddress(s, m) && a < RAMSIZE
    ensures DataAt(t, m, ea, bits8) == Cut(v, bits8) && t == s.(ram := t.ram, pc := t.pc)
    ensures a != ea % RAMSIZE && (bits8 || a != NextAddress(m, ea) % RAMSIZE) ==> t.ram[a] == s.ram[a]
  {
    hide Decode, EffectiveAddress, ReadAt, DataAt, State.Store, NextAddress;
    var u := WriteAt(s, m, ea, v, bits8);
    WriteMoves(s, u, m, ea, v, bits8);
    hide WriteAt;
    StoreThenLoad(s, m, ea, v, bits8);
    ReadSame(t, u, m, ea, bits8);
    ReadsData(t, m, ea, bits8);
    if a != ea % RAMSIZE && (bits8 || a != NextAddress(m, ea) % RAMSIZE) {
      WriteElsewhere(s, m, ea, v, bits8, a);
    }
  }

  lemma WriteMoves(s: State, u: State, m: Mode, ea: nat, v: int, bits8: bool)
    requires u == WriteAt(s, m, ea, v, bits8)
    ensures u == s.(ram := u.ram)
  {
  }

  // ----- the stack

  /** The value is on top of the stack that starts at `base`, as one byte or with its high byte below. */
  function Pushed(bytes: seq<Byte>, v: Word, bits8: bool): seq<Byte> {
    bytes + if bits8 then [Lo(v)] else [Hi(v), Lo(v)]
  }

  lemma PushOpcodes()
    ensures Decode(0x48) == Push(Pha) && Decode(0xda) == Push(Ph(X)) && Decode(0x5a) == Push(Ph(Y))
    ensures Decode(0x8b) == Push(Phb) && Decode(0x4b) == Push(Phk)
  {
  }

  lemma PullOpcodes()
    ensures Decode(0x68) == Pull(Pla) && Decode(0xfa) == Pull(Pl(X)) && Decode(0x7a) == Pull(Pl(Y))
    ensures Decode(0xab) == Pull(Plb)
  {
  }

  /** What each opcode pushes. */
  predicate Pushing(s: State, v: Word, bits8: bool) {
    var opcode := s.Fetch(s.pc);
    || (opcode == 0x48 && v == s.Acc(s.M8()) && bits8 == s.M8())
    || (opcode == 0xda && v == s.x && bits8 == s.X8())
    || (opcode == 0x5a && v == s.y && bits8 == s.X8())
    || (opcode == 0x8b && v == s.dbr && bits8)
    || (opcode == 0x4b && v == s.pbr && bits8)
  }

  lemma PushKeeps(s: State, v: int)
    ensures var t := s.Push(v); t == s.(ram := t.ram, sp := t.sp)
    ensures var t := s.PushWord(v); t == s.(ram := t.ram, sp := t.sp)
  {
  }

  /** PHA, PHX, PHY, PHB and PHK put their register on the stack. */
  lemma Pushes(s: State, v: Word, bits8: bool, base: Word, bytes: seq<Byte>, t: State)
    requires Sane(s) && Pushing(s, v, bits8) && t == Step(s)
    requires Stacked(s, base, bytes) && |bytes| + 2 <= Capacity(s.emul)
    ensures Stacked(t, base, Pushed(bytes, v, bits8)) && t == s.(ram := t.ram, sp := t.sp, pc := (s.pc + 1) % 0x10000)
  {
    hide Decode, Sane, Stacked, State.Push, State.PushWord;
    PushOpcodes();
    var u := s.Skip(1);
    assert t == PushIndex(u, v, bits8) by {
      hide PushIndex;
    }
    StackedSame(s, u, base, bytes);
    PushKeeps(u, v);
    if bits8 {
      PushCut(u, v);
      PushStacks(u, base, bytes, Lo(v));
    } else {
      WordStacks(u, base, bytes, v);
    }
  }

  lemma TakesOff(s: State, v: Word, bits8: bool, base: Word, bytes: seq<Byte>, t: State)
    requires Stacked(s, base, Pushed(bytes, v, bits8)) && v < Size(bits8)
    requires t == if bits8 then s.Pulled() else s.PulledWord()
    ensures v == (if bits8 then s.Top() else s.TopWord()) && Stacked(t, base, bytes) && t == s.(sp := t.sp)
  {
    hide Stacked, Hi, State.Top;
    if bits8 {
      PullUnstacks(s, base, bytes + [Lo(v)]);
      assert (bytes + [Lo(v)])[..|bytes| + 1 - 1] == bytes && Lo(v) == v;
    } else {
      WordUnstacks(s, base, bytes, v);
    }
  }

  /** A pull takes what is on top back off, and N and Z show it: PLA, */
  lemma PullsAccumulator(s: State, v: Word, base: Word, bytes: seq<Byte>, t: State)
    requires s.Fetch(s.pc) == 0x68 && t == Step(s)
    requires Stacked(s, base, Pushed(bytes, v, s.M8())) && v < Size(s.M8())
    ensures t.Acc(s.M8()) == v && (s.M8() ==> Hi(t.c) == Hi(s.c)) && Shown(t, v, s.M8()) && Stacked(t, base, bytes)
    ensures t == s.(c := t.c, sp := t.sp, n := t.n, z := t.z, pc := (s.pc + 1) % 0x10000)
  {
    hide Decode, Stacked, State.Top, State.TopWord, State.Pulled, State.PulledWord, State.SetNZ, State.M8, Hi;
    PullOpcodes();
    var u := s.Skip(1);
    SkipKeeps(s, 1);
    StackedSame(s, u, base, Pushed(bytes, v, s.M8()));
    var w := if s.M8() then u.Pulled() else u.PulledWord();
    TakesOff(u, v, s.M8(), base, bytes, w);
    AccumulatorSet(w, v, s.M8());
    Shows(w.SetAcc(v, s.M8()), v, s.M8(), t);
    StackedSame(w, t, base, bytes);
    hide Shown;
  }

  /** PLX and PLY, */
  lemma PullsIndex(s: State, r: Index, v: Word, base: Word, bytes: seq<Byte>, t: State)
    requires s.Fetch(s.pc) == (if r.X? then 0xfa else 0x7a) && t == Step(s)
    requires Stacked(s, base, Pushed(bytes, v, s.X8())) && v < Size(s.X8())
    ensures Shown(t, v, s.X8()) && Stacked(t, base, bytes)
    ensures var u := s.(sp := t.sp, n := t.n, z := t.z, pc := (s.pc + 1) % 0x10000);
            t == if r.X? then u.(x := v) else u.(y := v)
  {
    hide Decode, Stacked, State.Top, State.TopWord, State.Pulled, State.PulledWord, State.SetNZ, State.X8;
    PullOpcodes();
    var u := s.Skip(1);
    SkipKeeps(s, 1);
    StackedSame(s, u, base, Pushed(bytes, v, s.X8()));
    var w := if s.X8() then u.Pulled() else u.PulledWord();
    TakesOff(u, v, s.X8(), base, bytes, w);
    Shows(SetIndex(w, r, v), v, s.X8(), t);
    StackedSame(w, t, base, bytes);
    hide Shown;
  }

  /** and PLB. */
  lemma PullsBank(s: State, v: Byte, base: Word, bytes: seq<Byte>, t: State)
    requires s.Fetch(s.pc) == 0xab && t == Step(s) && Stacked(s, base, Pushed(bytes, v, true))
    ensures Shown(t, v, true) && Stacked(t, base, bytes)
    ensures t == s.(dbr := v, sp := t.sp, n := t.n, z := t.z, pc := (s.pc + 1) % 0x10000)
  {
    hide Decode, Stacked, State.Top, State.TopWord, State.Pulled, State.PulledWord, State.SetNZ;
    PullOpcodes();
    var u := s.Skip(1);
    StackedSame(s, u, base, Pushed(bytes, v, true));
    TakesOff(u, v, true, base, bytes, u.Pulled());
    SameTop(s, u);
    Shows(u.Pulled().(dbr := v), v, true, t);
    StackedSame(u.Pulled(), t, base, bytes);
    hide Shown;
  }

  lemma SameTop(s: State, u: State)
    requires u.ram == s.ram && u.sp == s.sp && u.emul == s.emul
    ensures u.Top() == s.Top()
  {
  }

  // ----- on to the next instruction

  /** The operand bytes of an addressing mode: two for an absolute address, three for a long one, else one. */
  predicate Bytes(m: Mode, n: nat) {
    n == if m.AbsLong? || m.AbsLongX? then 3 else if m.Abs? || m.AbsX? || m.AbsY? then 2 else 1
  }

  lemma OperationStays(s: State, op: AluOp, v: Word, bits8: bool)
    requires bits8 ==> v < 0x100
    ensures Accumulate(s, op, v, bits8).pc == s.pc
  {
    hide AdcSum, SbcSum, BitAnd, BitOr, BitXor, State.Acc, Lo, Hi;
  }

  lemma IndexStays(s: State, r: Index, v: Word, w: Word, bits8: bool)
    ensures LoadIndex(s, r, v).pc == s.pc && Compare(s, v, w, bits8).pc == s.pc
  {
    hide BitOr, Lo, Hi;
  }

  lemma ModifyStays(s: State, op: RmwOp, v: Word, r: int, m: Mode, ea: nat, bits8: bool)
    ensures WriteAt(ModifyFlags(s, op, v, r, bits8), m, ea, r, bits8).pc == s.pc
    ensures ModifyFlags(s, op, v, r, bits8).SetAcc(r, bits8).pc == s.pc
  {
    hide BitAnd, BitOr, Lo, Hi, BitSet;
  }

  lemma OperatesOver(s: State, op: AluOp, from: Source, t: State)
    requires Decode(s.Fetch(s.pc)) == Alu(op, from) && t == Step(s)
    ensures t.pc == (s.pc + SourceLength(from, s.M8())) % 0x10000
  {
    hide Decode, Accumulate, ReadSource, State.M8, SourceLength;
    OperationStays(s, op, ReadSource(s, from, s.M8()), s.M8());
  }

  lemma IndexesOver(s: State, r: Index, from: Source, t: State)
    requires (Decode(s.Fetch(s.pc)) == Ld(r, from) || Decode(s.Fetch(s.pc)) == Cp(r, from)) && t == Step(s)
    ensures t.pc == (s.pc + SourceLength(from, s.X8())) % 0x10000
  {
    hide Decode, LoadIndex, Compare, ReadSource, State.X8, SourceLength;
    IndexStays(s, r, ReadSource(s, from, s.X8()), 0, true);
    IndexStays(s, r, GetIndex(s, r), ReadSource(s, from, s.X8()), s.X8());
  }

  lemma WritesOver(s: State, what: Stored, m: Mode, t: State)
    requires Decode(s.Fetch(s.pc)) == Write(what, m) && t == Step(s)
    ensures t.pc == (s.pc + Length(m)) % 0x10000
  {
    hide Decode, EffectiveAddress, WriteAt, Length;
    var v, bits8, ea := StoredValue(s, what), StoredWidth(s, what), EffectiveAddress(s, m);
    WriteMoves(s, WriteAt(s, m, ea, v, bits8), m, ea, v, bits8);
  }

  lemma ModifiesOver(s: State, op: RmwOp, target: Target, t: State)
    requires Decode(s.Fetch(s.pc)) == Rmw(op, target) && t == Step(s)
    ensures t.pc == (s.pc + match target case Acc => 1 case Cell(m) => Length(m)) % 0x10000
  {
    hide Decode, EffectiveAddress, WriteAt, ModifyFlags, Modified, ReadAt, State.SetAcc, State.M8, Length;
    var m := if target.Cell? then target.mode else Dp;
    var ea := EffectiveAddress(s, m);
    var v := if target.Cell? then ReadAt(s, m, ea, s.M8()) else s.Acc(s.M8());
    ModifyStays(s, op, v, Modified(s, op, v, s.M8()), m, ea, s.M8());
  }

  /** An instruction that reads or writes ends after its operand, which as a value is as wide as its register. */
  lemma StepsOver(s: State, i: Instr, m: Mode, n: nat, t: State)
    requires i == Decode(s.Fetch(s.pc)) && t == Step(s) && Bytes(m, n)
    ensures (i.Alu? || i.Ld? || i.Cp?) && i.from == Mem(m) ==> t.pc == (s.pc + 1 + n) % 0x10000
    ensures i.Alu? && i.from == Imm ==> t.pc == (s.pc + if s.M8() then 2 else 3) % 0x10000
    ensures (i.Ld? || i.Cp?) && i.from == Imm ==> t.pc == (s.pc + if s.X8() then 2 else 3) % 0x10000
    ensures i.Write? && i.mode == m ==> t.pc == (s.pc + 1 + n) % 0x10000
    ensures i.Rmw? && i.target == Cell(m) ==> t.pc == (s.pc + 1 + n) % 0x10000
    ensures i.Rmw? && i.target == Acc ==> t.pc == (s.pc + 1) % 0x10000
  {
    hide Decode, Step, State.M8, State.X8;
    assert Length(m) == 1 + n;
    match i
    case Alu(op, from) => OperatesOver(s, op, from, t);
    case Ld(r, from) => IndexesOver(s, r, from, t);
    case Cp(r, from) => IndexesOver(s, r, from, t);
    case Write(what, mode) => WritesOver(s, what, mode, t);
    case Rmw(op, target) => ModifiesOver(s, op, target, t);
    case _ =>
  }
}
