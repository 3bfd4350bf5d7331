/** Calls, interrupts and saved status: what is pushed comes back, whatever ran in between,
    as long as the frame is still on the stack (emulator/65816core.c). */
module Frames {
  import opened Primitives
  import opened Machine
  import opened Instructions
  import opened Modes
  import opened Stack

  /** The stack holds these bytes above `base`, with room for n more. */
  ghost predicate Holding(s: State, base: Word, bytes: seq<Byte>, n: nat) {
    Sane(s) && Stacked(s, base, bytes) && |bytes| + n <= Capacity(s.emul)
  }

  lemma WordStacks(s: State, base: Word, bytes: seq<Byte>, v: int)
    requires Stacked(s, base, bytes) && |bytes| + 2 <= Capacity(s.emul)
    ensures Stacked(s.PushWord(v), base, bytes + [Hi(v), Lo(v)])
  {
    var b: Byte, c: Byte := Hi(v), Lo(v);
    PushStacks(s, base, bytes, b);
    PushStacks(s.Push(b), base, bytes + [b], c);
    assert bytes + [b] + [c] == bytes + [b, c];
  }

  lemma WordUnstacks(s: State, base: Word, bytes: seq<Byte>, v: Word)
    requires Stacked(s, base, bytes + [Hi(v), Lo(v)])
    ensures s.TopWord() == v && Stacked(s.PulledWord(), base, bytes)
  {
    hide Stacked, State.Top, State.StackUp;
    var frame := bytes + [Hi(v), Lo(v)];
    PullUnstacks(s, base, frame);
    assert frame[..|frame| - 1] == bytes + [Hi(v)];
    PullUnstacks(s.Pulled(), base, bytes + [Hi(v)]);
    assert (bytes + [Hi(v)])[..|bytes| + 1 - 1] == bytes;
  }

  // ----- subroutines

  /** The address of a call's own last byte, n bytes past the opcode. */
  function ReturnAddress(s: State, n: nat): Word {
    (s.pc + n) % 0x10000
  }

  lemma CallStacks(s: State, base: Word, bytes: seq<Byte>)
    requires Holding(s, base, bytes, 2)
    ensures Stacked(JumpSubroutine(s), base, bytes + [Hi(ReturnAddress(s, 2)), Lo(ReturnAddress(s, 2))])
  {
    var t := s.Skip(2);
    StackedSame(s, t, base, bytes);
    WordStacks(t, base, bytes, t.pc);
    StackedSame(t.PushWord(t.pc), JumpSubroutine(s), base, bytes + [Hi(t.pc), Lo(t.pc)]);
  }

  lemma ReturnUnstacks(u: State, base: Word, bytes: seq<Byte>, v: Word)
    requires Stacked(u, base, bytes + [Hi(v), Lo(v)])
    ensures Stacked(Return(u), base, bytes) && Return(u).emul == u.emul
    ensures Return(u).pc == (v + 1) % 0x10000 && Return(u).pbr == u.pbr
  {
    WordUnstacks(u, base, bytes, v);
    StackedSame(u.PulledWord(), Return(u), base, bytes);
  }

  /** JSR stacks a frame, and RTS from any state with that frame on top comes back to the next
      instruction, in either mode and wherever the stack wraps. */
  lemma CallReturns(s: State, u: State, base: Word, bytes: seq<Byte>, frame: seq<Byte>)
    requires Holding(s, base, bytes, 2)
    requires frame == bytes + [Hi(ReturnAddress(s, 2)), Lo(ReturnAddress(s, 2))]
    requires u.emul == s.emul && Stacked(u, base, frame)
    ensures Stacked(JumpSubroutine(s), base, frame) && JumpSubroutine(s).pc == OperandWord(s)
    ensures Return(u).pc == (s.pc + 3) % 0x10000 && Return(u).pbr == u.pbr
    ensures Stacked(Return(u), base, bytes) && Return(u).sp == s.sp
  {
    CallStacks(s, base, bytes);
    ReturnUnstacks(u, base, bytes, ReturnAddress(s, 2));
    InBank(s.pc + 2, 1);
  }

  /** An unwrapped push is an ordinary one unless it should have wrapped. */
  lemma RawPushIsPush(s: State, v: int)
    requires s.emul ==> 0x100 < s.sp < 0x200
    ensures s.PushRaw(v) == s.Push(v)
  {
  }

  /** JSR through an indexed table makes the same frame, so RTS undoes it too, unless the stack
      pointer of emulation mode is at the very bottom of page 1. */
  lemma IndexedCallStacks(s: State, base: Word, bytes: seq<Byte>)
    requires Holding(s, base, bytes, 2) && !(s.emul && s.sp == 0x100)
    ensures Stacked(JumpSubroutineIndexed(s), base, bytes + [Hi(ReturnAddress(s, 2)), Lo(ReturnAddress(s, 2))])
  {
    var t := s.Skip(2);
    StackedSame(s, t, base, bytes);
    WordStacks(t, base, bytes, t.pc);
    RawPushIsPush(t, Hi(t.pc));
    StackedSame(t.PushWord(t.pc), JumpSubroutineIndexed(s), base, bytes + [Hi(t.pc), Lo(t.pc)]);
  }

  lemma BottomPushes(s: State, hi: Byte, lo: Byte, t: State)
    requires s.emul && s.sp == 0x100 && t == s.PushRaw(hi).Push(lo)
    ensures t.ram == s.ram[0x100 := hi][0xff := lo] && t.sp == 0x1fe && t.emul
  {
  }

  /** There the low byte lands outside page 1, where RTS does not look. */
  lemma IndexedCallMissed(s: State, t: State)
    requires Sane(s) && s.emul && s.sp == 0x100 && t == JumpSubroutineIndexed(s)
    ensures t.ram[0xff] == Lo(ReturnAddress(s, 2)) && t.StackUp() == 0x1ff && t.ram[0x1ff] == s.ram[0x1ff]
  {
    hide State.Load, Return;
    var u := s.Skip(2);
    BottomPushes(u, Hi(u.pc), Lo(u.pc), u.PushRaw(Hi(u.pc)).Push(Lo(u.pc)));
  }

  /** A later state, back at the frame an indexed call wrote, neither byte of which has changed. */
  ghost predicate IndexedFrameKept(s: State, t: State, u: State) {
    && u.emul == t.emul && u.sp == t.sp
    && u.Load(LongCell(s.sp, 0)) == t.Load(LongCell(s.sp, 0)) && u.Load(LongCell(s.sp, 1)) == t.Load(LongCell(s.sp, 1))
  }

  ghost predicate IndexedReturned(s: State, r: State) {
    r.pc == (s.pc + 3) % 0x10000 && r.sp == s.sp
  }

  lemma TwoCells(emul: bool, sp: Word)
    requires (emul ==> 0x100 <= sp < 0x200) && !(emul && sp == 0x100)
    ensures Stack.Cell(emul, sp, 0) == LongCell(sp, 0) && Stack.Cell(emul, sp, 1) == LongCell(sp, 1)
  {
  }

  lemma FrameCarried(s: State, t: State, u: State, hi: Byte, lo: Byte)
    requires (s.emul ==> 0x100 <= s.sp < 0x200) && !(s.emul && s.sp == 0x100) && t.emul == s.emul
    requires IndexedFrameKept(s, t, u) && Stacked(t, s.sp, [hi, lo])
    ensures Stacked(u, s.sp, [hi, lo]) && u.emul == s.emul
  {
    TwoCells(s.emul, s.sp);
    hide LongCell;
    assert t.Load(Stack.Cell(t.emul, s.sp, 0)) == [hi, lo][0] && t.Load(Stack.Cell(t.emul, s.sp, 1)) == [hi, lo][1];
  }

  lemma IndexedKeepsMode(s: State)
    ensures JumpSubroutineIndexed(s).emul == s.emul
  {
  }

  lemma IndexedCallReturns(s: State, t: State, u: State)
    requires Sane(s) && !(s.emul && s.sp == 0x100) && t == JumpSubroutineIndexed(s) && IndexedFrameKept(s, t, u)
    ensures IndexedReturned(s, Return(u))
  {
    hide JumpSubroutineIndexed, Return, IndexedFrameKept, Stacked, Holding, Sane, Hi, Lo, ReturnAddress;
    var v := ReturnAddress(s, 2);
    EmptyStack(s);
    IndexedKeepsMode(s);
    IndexedCallStacks(s, s.sp, []);
    assert [] + [Hi(v), Lo(v)] == [Hi(v), Lo(v)];
    FrameCarried(s, t, u, Hi(v), Lo(v));
    ReturnUnstacks(u, s.sp, [], v);
    AfterReturnAddress(s);
  }

  lemma EmptyStack(s: State)
    requires Sane(s)
    ensures Holding(s, s.sp, [], 2) && Stacked(s, s.sp, []) && (s.emul ==> 0x100 <= s.sp < 0x200)
    ensures forall u: State :: Stacked(u, s.sp, []) && u.emul == s.emul ==> u.sp == s.sp
  {
  }

  lemma AfterReturnAddress(s: State)
    ensures (ReturnAddress(s, 2) + 1) % 0x10000 == (s.pc + 3) % 0x10000
  {
    InBank(s.pc + 2, 1);
  }

  lemma BottomReturns(u: State, lo: Byte, hi: Byte)
    requires u.emul && u.sp == 0x1fe && u.ram[0x1ff] == lo && u.ram[0x100] == hi
    ensures Return(u).pc == (lo + 0x100 * hi + 1) % 0x10000
  {
    assert u.StackUp() == 0x1ff;
    assert u.Pulled().StackUp() == 0x100 by {
      hide State.Top, State.TopWord, State.Load;
    }
    hide State.StackUp;
  }

  /** With the pointer at the bottom of page 1 any other byte at the top of the page misleads RTS. */
  lemma IndexedCallLost(s: State, t: State) returns (u: State)
    requires Sane(s) && s.emul && s.sp == 0x100 && t == JumpSubroutineIndexed(s)
    ensures IndexedFrameKept(s, t, u) && !IndexedReturned(s, Return(u))
  {
    var pushed, v := s.Skip(2), ReturnAddress(s, 2);
    var other: Byte := (Lo(v) + 1) % 0x100;
    BottomPushes(pushed, Hi(v), Lo(v), pushed.PushRaw(Hi(v)).Push(Lo(v)));
    assert t.ram == s.ram[0x100 := Hi(v)][0xff := Lo(v)] && t.sp == 0x1fe && t.emul;
    u := t.(ram := t.ram[0x1ff := other]);
    hide JumpSubroutineIndexed, Return;
    BottomReturns(u, other, Hi(v));
    InBank(s.pc + 2, 1);
    WordParts(v, other);
  }

  lemma WordParts(v: Word, other: Byte)
    requires other != Lo(v)
    ensures (other + 0x100 * Hi(v) + 1) % 0x10000 != (v + 1) % 0x10000
  {
    assert v == Lo(v) + 0x100 * Hi(v);
  }

  /** JSR through an indexed table and RTS pair up, whatever runs between them, exactly when the pointer
      is not at the bottom of page 1 in emulation mode. */
  lemma IndexedCallExactly(s: State, t: State)
    requires Sane(s) && t == JumpSubroutineIndexed(s)
    ensures (forall u :: IndexedFrameKept(s, t, u) ==> IndexedReturned(s, Return(u))) <==> !(s.emul && s.sp == 0x100)
  {
    if s.emul && s.sp == 0x100 {
      var u := IndexedCallLost(s, t);
    } else {
      forall u | IndexedFrameKept(s, t, u)
        ensures IndexedReturned(s, Return(u))
      {
        IndexedCallReturns(s, t, u);
      }
    }
  }

  // ----- interrupts

  lemma BreakStacks(s: State, base: Word, bytes: seq<Byte>)
    requires Holding(s, base, bytes, 4) && !s.emul
    ensures Stacked(Break(s), base,
            bytes + [s.pbr] + [Hi(ReturnAddress(s, 2)), Lo(ReturnAddress(s, 2))] + [s.Status() as int])
  {
    var t := s.Skip(2);
    StackedSame(s, t, base, bytes);
    PushStacks(t, base, bytes, t.pbr);
    var u := t.Push(t.pbr);
    WordStacks(u, base, bytes + [s.pbr], t.pc);
    var w := u.PushWord(t.pc);
    var frame := bytes + [s.pbr] + [Hi(t.pc), Lo(t.pc)];
    PushStacks(w, base, frame, w.Status() as int);
    StackedSame(w.Push(w.Status() as int), Break(s), base, frame + [s.Status() as int]);
  }

  /** The program counter and bank a native interrupt comes back to. */
  lemma InterruptUnstacks(u: State, base: Word, bytes: seq<Byte>, bank: Byte, v: Word, status: Byte, r: State)
    requires !u.emul && Stacked(u, base, bytes + [bank] + [Hi(v), Lo(v)] + [status])
    requires r == ReturnFromInterrupt(u)
    ensures Stacked(r, base, bytes) && r.pc == v && r.pbr == bank && u.Top() == status
  {
    var frame := bytes + [bank] + [Hi(v), Lo(v)];
    PullUnstacks(u, base, frame + [status]);
    assert (frame + [status])[..|frame| + 1 - 1] == frame;
    var t := u.Pulled().SetStatus(status).Narrow();
    StackedSame(u.Pulled(), t, base, frame);
    WordUnstacks(t, base, bytes + [bank], v);
    PullUnstacks(t.PulledWord(), base, bytes + [bank]);
    assert (bytes + [bank])[..|bytes| + 1 - 1] == bytes;
    StackedSame(t.PulledWord().Pulled(), r, base, bytes);
  }

  predicate SameFlags(t: State, s: State) {
    t.p == s.p && t.Sign() == s.Sign() && t.Zero() == s.Zero()
  }

  /** N and Z go through the status byte and back, apart from the other six. */
  lemma SavedFlags(p: bv8, sign: bool, zero: bool, b: bv8)
    requires p & (P_SIGN | P_ZERO) == 0 && b == p | (if sign then P_SIGN else 0) | (if zero then P_ZERO else 0)
    ensures b & !(P_ZERO | P_SIGN) == p && (b & P_ZERO != 0 <==> zero) && ((b as int) >= 0x80 <==> sign)
    ensures ((b as int) as bv8) == b
  {
  }

  lemma StatusByte(s: State, b: bv8)
    requires b == s.Status()
    ensures b == s.p | (if s.Sign() then P_SIGN else 0) | (if s.Zero() then P_ZERO else 0)
  {
  }

  lemma SetStatusParts(t: State, v: Byte, b: bv8)
    requires v as bv8 == b
    ensures t.SetStatus(v).p == b & !(P_ZERO | P_SIGN)
    ensures t.SetStatus(v).Zero() <==> b & P_ZERO != 0
    ensures t.SetStatus(v).Sign() <==> v >= 0x80
  {
  }

  /** Restoring a status byte restores all eight flags of the split form. */
  lemma StatusRestored(s: State, t: State, b: bv8)
    requires Sane(s) && b == s.Status()
    ensures SameFlags(t.SetStatus(b as int), s)
  {
    StatusByte(s, b);
    SavedFlags(s.p, s.Sign(), s.Zero(), b);
    SetStatusParts(t, b as int, b);
  }

  /** RTI takes its flags from the byte on top of the stack. */
  lemma InterruptFlags(u: State, s: State, r: State)
    requires Sane(s) && u.Top() == s.Status() as int && r == ReturnFromInterrupt(u)
    ensures SameFlags(r, s)
  {
    StatusRestored(s, u.Pulled(), s.Status());
    var t := u.Pulled().SetStatus(u.Top());
    assert r.p == t.p && r.n == t.n && r.z == t.z;
  }

  /** Native BRK and RTI: back to the opcode address plus 2, in the same bank, all flags as they were. */
  lemma InterruptReturns(s: State, u: State, base: Word, bytes: seq<Byte>, frame: seq<Byte>, r: State)
    requires Holding(s, base, bytes, 4) && !s.emul && !u.emul
    requires frame == bytes + [s.pbr] + [Hi(ReturnAddress(s, 2)), Lo(ReturnAddress(s, 2))] + [s.Status() as int]
    requires Stacked(u, base, frame) && r == ReturnFromInterrupt(u)
    ensures Stacked(Break(s), base, frame)
    ensures Stacked(r, base, bytes) && r.sp == s.sp && r.pc == (s.pc + 2) % 0x10000 && r.pbr == s.pbr && SameFlags(r, s)
  {
    BreakStacks(s, base, bytes);
    InterruptUnstacks(u, base, bytes, s.pbr, ReturnAddress(s, 2), s.Status() as int, r);
    InterruptFlags(u, s, r);
  }

  /** The state whose status byte emulation mode really pushes: B and the unused bit always set. */
  function Marked(s: State): State {
    s.(p := s.p | P_BREAK | P_UNUSED)
  }

  lemma MarkedStatus(s: State, u: State)
    requires Sane(s) && u.p == s.p | P_BREAK && u.n == s.n && u.z == s.z
    ensures u.Status() | P_UNUSED == Marked(s).Status()
  {
    MarkedBits(s.p, s.Sign(), s.Zero());
  }

  lemma MarkedSane(s: State)
    requires Sane(s) && s.emul
    ensures Sane(Marked(s)) && Marked(s).Status() == s.Status() | P_UNUSED | P_BREAK
  {
    MarkedBits(s.p, s.Sign(), s.Zero());
  }

  lemma MarkedBits(p: bv8, sign: bool, zero: bool)
    requires p & (P_SIGN | P_ZERO) == 0
    ensures (p | P_BREAK | P_UNUSED) & (P_SIGN | P_ZERO) == 0
    ensures var n, z := if sign then P_SIGN else 0, if zero then P_ZERO else 0;
            && (p | P_BREAK) | n | z | P_UNUSED == (p | P_BREAK | P_UNUSED) | n | z
            && p | n | z | P_UNUSED | P_BREAK == (p | P_BREAK | P_UNUSED) | n | z
  {
  }

  lemma EmulatedBreakStacks(s: State, base: Word, bytes: seq<Byte>)
    requires Holding(s, base, bytes, 3) && s.emul
    ensures Stacked(Break(s), base,
            bytes + [Hi(ReturnAddress(s, 2)), Lo(ReturnAddress(s, 2))] + [Marked(s).Status() as int])
  {
    var t := s.Skip(2).Flag(P_BREAK, true);
    StackedSame(s, t, base, bytes);
    WordStacks(t, base, bytes, t.pc);
    var u := t.PushWord(t.pc);
    var frame := bytes + [Hi(t.pc), Lo(t.pc)];
    MarkedStatus(s, u);
    var b: Byte := Marked(s).Status() as int;
    PushStacks(u, base, frame, b);
    EmulatedBreakIs(s, u, b);
    StackedSame(u.Push(b), Break(s), base, frame + [b]);
  }

  lemma EmulatedBreakIs(s: State, u: State, b: Byte)
    requires s.emul && u == s.Skip(2).Flag(P_BREAK, true).PushWord(s.Skip(2).pc) && b == (u.Status() | P_UNUSED) as int
    ensures Break(s).ram == u.Push(b).ram && Break(s).sp == u.Push(b).sp && Break(s).emul == u.Push(b).emul
  {
  }

  lemma EmulatedInterruptUnstacks(u: State, base: Word, bytes: seq<Byte>, v: Word, status: Byte, r: State)
    requires u.emul && Stacked(u, base, bytes + [Hi(v), Lo(v)] + [status])
    requires r == ReturnFromInterrupt(u)
    ensures Stacked(r, base, bytes) && r.pc == v && r.pbr == u.pbr && u.Top() == status
  {
    var frame := bytes + [Hi(v), Lo(v)];
    PullUnstacks(u, base, frame + [status]);
    assert (frame + [status])[..|frame| + 1 - 1] == frame;
    var t := u.Pulled().SetStatus(status).Narrow();
    StackedSame(u.Pulled(), t, base, frame);
    WordUnstacks(t, base, bytes, v);
    StackedSame(t.PulledWord(), r, base, bytes);
  }

  /** In emulation mode the bank is neither saved nor restored, and B and the unused bit come back set. */
  lemma EmulatedInterruptReturns(s: State, u: State, base: Word, bytes: seq<Byte>, frame: seq<Byte>, r: State)
    requires Holding(s, base, bytes, 3) && s.emul && u.emul
    requires frame == bytes + [Hi(ReturnAddress(s, 2)), Lo(ReturnAddress(s, 2))] + [Marked(s).Status() as int]
    requires Stacked(u, base, frame) && r == ReturnFromInterrupt(u)
    ensures Stacked(Break(s), base, frame) && Break(s).pbr == 0
    ensures Stacked(r, base, bytes) && r.sp == s.sp && r.pc == (s.pc + 2) % 0x10000 && r.pbr == u.pbr
    ensures SameFlags(r, Marked(s))
  {
    EmulatedBreakStacks(s, base, bytes);
    EmulatedInterruptUnstacks(u, base, bytes, ReturnAddress(s, 2), Marked(s).Status() as int, r);
    MarkedSane(s);
    InterruptFlags(u, Marked(s), r);
  }

  // ----- saved status

  /** The status PHP saves. */
  function Saved(s: State): State {
    if s.emul then Marked(s) else s
  }

  lemma SavedStatus(s: State)
    requires Sane(s)
    ensures Sane(Saved(s))
    ensures ExecutePush(s, Php) == s.Push(Saved(s).Status() as int).Skip(1)
  {
    if s.emul {
      MarkedSane(s);
    }
  }

  lemma StatusSaved(s: State, base: Word, bytes: seq<Byte>, b: Byte)
    requires Holding(s, base, bytes, 1) && b == Saved(s).Status() as int
    ensures Stacked(ExecutePush(s, Php), base, bytes + [b])
  {
    SavedStatus(s);
    PushStacks(s, base, bytes, b);
    StackedSame(s.Push(b), ExecutePush(s, Php), base, bytes + [b]);
  }

  lemma StatusPulled(u: State, base: Word, bytes: seq<Byte>, b: Byte, r: State)
    requires Stacked(u, base, bytes + [b]) && r == ExecutePull(u, Plp)
    ensures Stacked(r, base, bytes)
    ensures var t := u.Pulled().SetStatus(b); r.p == t.p && r.n == t.n && r.z == t.z
    ensures r.X8() ==> r.x < 0x100 && r.y < 0x100
  {
    PullUnstacks(u, base, bytes + [b]);
    assert (bytes + [b])[..|bytes| + 1 - 1] == bytes;
    StackedSame(u.Pulled(), r, base, bytes);
  }

  /** PHP, then PLP from any state with that byte on top, restores all eight flags (B and
      the unused bit read as set in emulation mode), and X and Y keep to the restored width. */
  lemma StatusSavedAndRestored(s: State, u: State, base: Word, bytes: seq<Byte>, b: Byte, r: State)
    requires Holding(s, base, bytes, 1) && b == Saved(s).Status() as int
    requires u.emul == s.emul && Stacked(u, base, bytes + [b]) && r == ExecutePull(u, Plp)
    ensures Stacked(ExecutePush(s, Php), base, bytes + [b])
    ensures Stacked(r, base, bytes) && r.sp == s.sp && SameFlags(r, Saved(s))
    ensures r.X8() ==> r.x < 0x100 && r.y < 0x100
  {
    StatusSaved(s, base, bytes, b);
    StatusPulled(u, base, bytes, b, r);
    SavedStatus(s);
    StatusRestored(Saved(s), u.Pulled(), Saved(s).Status());
  }

  // ----- the direct page register on the stack: PHD, PEA, PEI and PER push like an indexed call, PLD pulls
  // without the emulation-mode wrap

  /** A later state, back at a word pushed by one of them, neither byte of which has changed. */
  ghost predicate WideKept(s: State, t: State, u: State) {
    && u.emul == t.emul && u.sp == t.sp
    && u.Load(LongCell(s.sp, 0)) == t.Load(LongCell(s.sp, 0)) && u.Load(LongCell(s.sp, 1)) == t.Load(LongCell(s.sp, 1))
  }

  /** Where such a push leaves the stack pointer. */
  function WideLow(emul: bool, sp: Word): Word {
    if emul then 0x100 + (LongCell(sp, 1) - 1) % 0x100 else LongCell(sp, 2)
  }

  lemma WidePushes(s: State, v: Word, t: State)
    requires t == PushWide(s, v)
    ensures t.Load(LongCell(s.sp, 0)) == Hi(v) && t.Load(LongCell(s.sp, 1)) == Lo(v)
    ensures t.emul == s.emul && t.sp == WideLow(s.emul, s.sp)
  {
    LongCellDown(s.sp, 0);
    LongCellDown(s.sp, 1);
  }

  /** PLD climbs back over the two cells exactly when the pointer did not leave page 1. */
  lemma WideSlots(emul: bool, sp: Word, low: Word)
    requires low == WideLow(emul, sp) && (emul ==> 0x100 <= sp < 0x200)
    ensures !emul || sp >= 0x102 ==>
            (low + 1) % 0x10000 == LongCell(sp, 1) && (low + 2) % 0x10000 == LongCell(sp, 0) == sp
    ensures emul && sp < 0x102 ==> low + 2 == sp + 0x100
    ensures emul ==> 0x100 + (low + 2) % 0x100 == sp
  {
  }

  lemma BytesOf(low: Byte, high: Byte, v: Word)
    ensures low + 0x100 * high == v <==> low == Lo(v) && high == Hi(v)
  {
    assert v == Lo(v) + 0x100 * Hi(v);
  }

  lemma WidePulls(u: State, v: Word, r: State)
    requires r == PullDirect(u)
    ensures r.dpr == v <==> Raw(u, 1) == Lo(v) && Raw(u, 2) == Hi(v)
    ensures r.sp == if u.emul then 0x100 + (u.sp + 2) % 0x100 else (u.sp + 2) % 0x10000
  {
    var low, high := Raw(u, 1), Raw(u, 2);
    hide Raw;
    BytesOf(low, high, v);
    hide Lo, Hi;
  }

  /** A word pushed so comes back by PLD, with the stack pointer, whatever runs between, exactly in native mode or
      with the stack pointer at 0x102 or more. */
  lemma WideExactly(s: State, v: Word, t: State)
    requires (s.emul ==> 0x100 <= s.sp < 0x200) && t == PushWide(s, v)
    ensures (forall u :: WideKept(s, t, u) ==> PullDirect(u).dpr == v && PullDirect(u).sp == s.sp)
       <==> !s.emul || s.sp >= 0x102
  {
    hide PushWide, PullDirect, LongCell, WideLow;
    WidePushes(s, v, t);
    WideSlots(s.emul, s.sp, t.sp);
    if !s.emul || s.sp >= 0x102 {
      forall u | WideKept(s, t, u)
        ensures PullDirect(u).dpr == v && PullDirect(u).sp == s.sp
      {
        WidePulls(u, v, PullDirect(u));
      }
    } else {
      var u := WideLost(s, v, t);
    }
  }

  /** Lower down PLD reads the high byte from page 2. */
  lemma WideLost(s: State, v: Word, t: State) returns (u: State)
    requires s.emul && 0x100 <= s.sp < 0x102 && t.emul && t.sp == WideLow(true, s.sp)
    ensures WideKept(s, t, u) && PullDirect(u).dpr != v
  {
    hide PullDirect;
    var other: Byte := (Hi(v) + 1) % 0x100;
    u := t.(ram := t.ram[s.sp + 0x100 := other]);
    WideSlots(true, s.sp, t.sp);
    WidePulls(u, v, PullDirect(u));
  }

  /** PHD and PLD. */
  lemma DirectPageExactly(s: State, t: State)
    requires Sane(s) && t == ExecutePush(s, Phd)
    ensures (forall u :: WideKept(s, t, u) ==> ExecutePull(u, Pld).dpr == s.dpr && ExecutePull(u, Pld).sp == s.sp)
       <==> !s.emul || s.sp >= 0x102
  {
    hide PushWide, PullDirect;
    WideExactly(s.Skip(1), s.dpr, t);
    forall u
      ensures WideKept(s, t, u) == WideKept(s.Skip(1), t, u) && ExecutePull(u, Pld).sp == PullDirect(u).sp
      ensures ExecutePull(u, Pld).dpr == PullDirect(u).dpr
    {
      PullSkips(u);
    }
  }

  lemma PullSkips(u: State)
    ensures ExecutePull(u, Pld).dpr == PullDirect(u).dpr && ExecutePull(u, Pld).sp == PullDirect(u).sp
  {
    hide BitOr;
  }

  // ----- long calls: pushed and pulled without the emulation-mode wrap, the last push excepted

  /** Where the k-th byte of a long call's frame is written. */
  function LongCell(sp: Word, k: nat): Word
    requires k <= 3
  {
    if sp >= k then sp - k else sp - k + 0x10000
  }

  lemma LongCellDown(sp: Word, k: nat)
    requires k < 3
    ensures (LongCell(sp, k) - 1) % 0x10000 == LongCell(sp, k + 1)
  {
  }

  /** JSL as three stores. */
  lemma LongCallStores(s: State, t: State)
    requires t == JumpSubroutineLong(s)
    ensures t.ram ==
            s.Store(LongCell(s.sp, 0), s.pbr).Store(LongCell(s.sp, 1),
            Hi(ReturnAddress(s, 3))).Store(LongCell(s.sp, 2), Lo(ReturnAddress(s, 3))).ram
    ensures t.emul == s.emul && t.sp == LongLow(s.emul, s.sp)
  {
    LongCellDown(s.sp, 0);
    LongCellDown(s.sp, 1);
    LongCellDown(s.sp, 2);
  }

  lemma ThreeStores(s: State, a: Word, b: Word, c: Word, x: Byte, y: Byte, z: Byte, ram: Ram)
    requires a != b && a != c && b != c && ram == s.Store(a, x).Store(b, y).Store(c, z).ram
    ensures ram[a] == x && ram[b] == y && ram[c] == z
  {
  }

  /** What JSL leaves in memory. */
  lemma LongCallWrites(s: State, t: State)
    requires t.ram == s.Store(LongCell(s.sp, 0), s.pbr).Store(LongCell(s.sp, 1), Hi(ReturnAddress(s, 3)))
                       .Store(LongCell(s.sp, 2), Lo(ReturnAddress(s, 3))).ram
    ensures t.Load(LongCell(s.sp, 0)) == s.pbr
    ensures t.Load(LongCell(s.sp, 1)) == Hi(ReturnAddress(s, 3)) && t.Load(LongCell(s.sp, 2)) == Lo(ReturnAddress(s, 3))
  {
    ThreeStores(s, LongCell(s.sp, 0), LongCell(s.sp, 1), LongCell(s.sp, 2),
                s.pbr, Hi(ReturnAddress(s, 3)), Lo(ReturnAddress(s, 3)), t.ram);
  }

  /** A later state, back at the frame of this call, which nothing has overwritten. */
  ghost predicate LongFrameKept(s: State, t: State, u: State) {
    && u.emul == t.emul && u.sp == t.sp
    && u.Load(LongCell(s.sp, 0)) == t.Load(LongCell(s.sp, 0))
    && u.Load(LongCell(s.sp, 1)) == t.Load(LongCell(s.sp, 1))
    && u.Load(LongCell(s.sp, 2)) == t.Load(LongCell(s.sp, 2))
  }

  ghost predicate LongReturned(s: State, r: State) {
    r.pc == (s.pc + 4) % 0x10000 && r.pbr == s.pbr && r.sp == s.sp
  }

  /** Where JSL leaves the stack pointer. */
  function LongLow(emul: bool, sp: Word): Word {
    if emul then 0x100 + (LongCell(sp, 2) - 1) % 0x100 else LongCell(sp, 3)
  }

  /** RTL's reads climb back over the cells JSL wrote exactly when the pointer did not leave page 1. */
  lemma LongSlots(emul: bool, sp: Word, low: Word)
    requires low == LongLow(emul, sp) && (emul ==> 0x100 <= sp < 0x200)
    ensures !emul || sp >= 0x103 ==>
              && (low + 1) % 0x10000 == LongCell(sp, 2) && (low + 2) % 0x10000 == LongCell(sp, 1)
              && (low + 3) % 0x10000 == LongCell(sp, 0) == sp
    ensures emul && sp < 0x103 ==> low + 3 == sp + 0x100
    ensures emul ==> 0x100 + (low + 3) % 0x100 == sp
  {
  }

  lemma LongCallReturns(s: State, t: State, u: State, r: State)
    requires Sane(s) && (s.emul ==> s.sp >= 0x103) && t == JumpSubroutineLong(s)
    requires LongFrameKept(s, t, u) && r == ReturnLong(u)
    ensures LongReturned(s, r)
  {
    LongCallStores(s, t);
    LongCallWrites(s, t);
    LongSlots(s.emul, s.sp, t.sp);
    LongPulls(u, s.pbr, ReturnAddress(s, 3), r);
    InBank(s.pc + 3, 1);
  }

  lemma LongPulls(u: State, bank: Byte, v: Word, r: State)
    requires r == ReturnLong(u) && Raw(u, 1) == Lo(v) && Raw(u, 2) == Hi(v) && Raw(u, 3) == bank
    ensures r.pc == (v + 1) % 0x10000 && r.pbr == bank
    ensures r.sp == if u.emul then 0x100 + (u.sp + 3) % 0x100 else (u.sp + 3) % 0x10000
  {
    assert v == Lo(v) + 0x100 * Hi(v);
    hide Raw, Lo, Hi;
  }

  lemma BankPulled(u: State, a: Word)
    requires u.sp + 3 == a
    ensures ReturnLong(u).pbr == u.ram[a]
  {
  }

  /** In emulation mode with less than three bytes left in page 1 there is always a way to go
      wrong: JSL wraps after its last push while RTL reads on into page 2. */
  lemma LongCallLost(s: State, t: State) returns (u: State)
    requires Sane(s) && s.emul && s.sp < 0x103 && t == JumpSubroutineLong(s)
    ensures LongFrameKept(s, t, u) && !LongReturned(s, ReturnLong(u))
  {
    LongCallStores(s, t);
    LongSlots(s.emul, s.sp, t.sp);
    var bank: Byte := (s.pbr + 1) % 0x100;
    u := t.(ram := t.ram[s.sp + 0x100 := bank]);
    BankPulled(u, s.sp + 0x100);
  }

  /** JSL and RTL pair up, whatever runs between them, exactly in native mode or with the
      stack pointer at 0x103 or more. */
  lemma LongCallExactly(s: State, t: State)
    requires Sane(s) && t == JumpSubroutineLong(s)
    ensures (forall u :: LongFrameKept(s, t, u) ==> LongReturned(s, ReturnLong(u))) <==> !s.emul || s.sp >= 0x103
  {
    if !s.emul || s.sp >= 0x103 {
      forall u | LongFrameKept(s, t, u)
        ensures LongReturned(s, ReturnLong(u))
      {
        LongCallReturns(s, t, u, ReturnLong(u));
      }
    } else {
      var u := LongCallLost(s, t);
    }
  }
}
