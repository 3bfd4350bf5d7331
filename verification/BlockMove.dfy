/** MVN and MVP: many executions of one instruction add up to one block copy (emulator/65816core.c). */
module BlockMove {
  import opened Primitives
  import opened Machine
  import opened Instructions
  import opened Opcodes

  /** How a copy goes: its direction, and whether the index registers are 8 bits wide. */
  datatype Way = Way(up: bool, narrow: bool)
  {
    /** i places in the direction of travel. */
    function Along(i: int): int {
      if up then i else -i
    }

    /** An index register as far as its width goes. */
    function Turn(v: int): Word {
      if narrow then v % 0x100 else v % 0x10000
    }

    function Span(): nat {
      if narrow then 0x100 else 0x10000
    }

    function Next(v: Word): Word {
      Turn(v + Along(1))
    }
  }

  /** RAM cell of the i-th byte from an index in a bank. */
  function At(bank: Byte, offset: Word, way: Way, i: nat): (a: nat)
    ensures a < RAMSIZE
  {
    (way.Turn(offset + way.Along(i)) + 0x10000 * bank) % RAMSIZE
  }

  /** Only the low four bits of a bank reach the RAM. */
  lemma AtParts(bank: Byte, offset: Word, way: Way, i: nat)
    ensures At(bank, offset, way, i) == way.Turn(offset + way.Along(i)) + 0x10000 * (bank % 0x10)
  {
    var low := way.Turn(offset + way.Along(i));
    assert low + 0x10000 * bank == low + 0x10000 * (bank % 0x10) + RAMSIZE * (bank / 0x10);
  }

  lemma SameResidue(a: int, b: int, way: Way)
    requires way.Turn(a) == way.Turn(b) && a - b < way.Span() && b - a < way.Span()
    ensures a == b
  {
    if way.narrow {
      assert a - b == 0x100 * (a / 0x100 - b / 0x100);
    } else {
      assert a - b == 0x10000 * (a / 0x10000 - b / 0x10000);
    }
  }

  lemma NarrowChain(a: int, e: int)
    ensures (a % 0x100 + e) % 0x100 == (a + e) % 0x100
  {
  }

  lemma WideChain(a: int, e: int)
    ensures (a % 0x10000 + e) % 0x10000 == (a + e) % 0x10000
  {
  }

  lemma Chain(a: int, d: int, e: int, way: Way)
    ensures way.Turn(way.Turn(a + d) + e) == way.Turn(a + d + e)
  {
    if way.narrow {
      NarrowChain(a + d, e);
    } else {
      WideChain(a + d, e);
    }
  }

  lemma AtShift(bank: Byte, offset: Word, way: Way, i: nat)
    ensures At(bank, way.Next(offset), way, i) == At(bank, offset, way, i + 1)
  {
    Chain(offset, way.Along(1), way.Along(i), way);
  }

  /** Byte after byte, each read after the earlier ones have been written. */
  function CopyRun(ram: Ram, source: Byte, x: Word, dest: Byte, y: Word, way: Way, count: nat): Ram
    decreases count
  {
    if count == 0 then ram
    else CopyRun(ram[At(dest, y, way, 0) := ram[At(source, x, way, 0)]], source, way.Next(x), dest,
      way.Next(y), way, count - 1)
  }

  /** The last byte of a run comes after the run without it. */
  lemma {:induction false} CopyRunLast(ram: Ram, source: Byte, x: Word, dest: Byte, y: Word, way: Way, count: nat)
    ensures var before := CopyRun(ram, source, x, dest, y, way, count);
            CopyRun(ram, source, x, dest, y, way, count + 1) ==
              before[At(dest, y, way, count) := before[At(source, x, way, count)]]
    decreases count
  {
    hide At;
    var next := ram[At(dest, y, way, 0) := ram[At(source, x, way, 0)]];
    if count == 0 {
      assert CopyRun(next, source, way.Next(x), dest, way.Next(y), way, 0) == next;
    } else {
      AtShift(source, x, way, count - 1);
      AtShift(dest, y, way, count - 1);
      CopyRunLast(next, source, way.Next(x), dest, way.Next(y), way, count - 1);
    }
  }

  /** No byte is written before it has been read. */
  ghost predicate NoClobber(source: Byte, x: Word, dest: Byte, y: Word, way: Way, count: nat) {
    forall i: nat, j: nat :: i < j < count ==> At(dest, y, way, i) != At(source, x, way, j)
  }

  lemma DestinationsDistinct(bank: Byte, y: Word, way: Way, i: nat, j: nat)
    requires i < j < way.Span() + i
    ensures At(bank, y, way, i) != At(bank, y, way, j)
  {
    AtParts(bank, y, way, i);
    AtParts(bank, y, way, j);
    if At(bank, y, way, i) == At(bank, y, way, j) {
      SameResidue(y + way.Along(i), y + way.Along(j), way);
    }
  }

  /** Then the run is a plain copy: the destination holds the old source, the rest is untouched. */
  lemma {:induction false} CopyRunCopies(ram: Ram, source: Byte, x: Word, dest: Byte, y: Word, way: Way, count: nat)
    requires count <= way.Span() && NoClobber(source, x, dest, y, way, count)
    ensures var after := CopyRun(ram, source, x, dest, y, way, count);
            && (forall i: nat :: i < count ==> after[At(dest, y, way, i)] == ram[At(source, x, way, i)])
            && (forall a :: 0 <= a < RAMSIZE && (forall i: nat :: i < count ==> At(dest, y, way, i) != a) ==>
              after[a] == ram[a])
    decreases count
  {
    hide At, Way.Turn;
    if count > 0 {
      var first := At(dest, y, way, 0);
      var next := ram[first := ram[At(source, x, way, 0)]];
      var x1, y1 := way.Next(x), way.Next(y);
      forall i: nat
        ensures At(source, x1, way, i) == At(source, x, way, i + 1) && At(dest, y1, way, i) == At(dest, y, way, i + 1)
      {
        AtShift(source, x, way, i);
        AtShift(dest, y, way, i);
      }
      CopyRunCopies(next, source, x1, dest, y1, way, count - 1);
      var after := CopyRun(next, source, x1, dest, y1, way, count - 1);
      forall i: nat | i < count
        ensures after[At(dest, y, way, i)] == ram[At(source, x, way, i)]
      {
        if i == 0 {
          forall k: nat | k < count - 1
            ensures At(dest, y1, way, k) != first
          {
            DestinationsDistinct(dest, y, way, 0, k + 1);
          }
        } else {
          assert At(dest, y, way, i) == At(dest, y1, way, i - 1);
          assert At(source, x, way, i) == At(source, x1, way, i - 1);
        }
      }
      forall a | 0 <= a < RAMSIZE && (forall i: nat :: i < count ==> At(dest, y, way, i) != a)
        ensures after[a] == ram[a]
      {
        forall i: nat | i < count - 1
          ensures At(dest, y1, way, i) != a
        {
          assert At(dest, y, way, i + 1) != a;
        }
        assert At(dest, y, way, 0) != a;
      }
    }
  }

  /** While neither range leaves the reach of its index, what matters is how far the start of the
      destination lies past the start of the source in the direction of travel: the copy is safe
      exactly when that distance is not among 1 to count-1. */
  lemma SafeSide(source: Byte, x: Word, dest: Byte, y: Word, way: Way, count: nat)
    requires 0 < count && x < way.Span() && y < way.Span()
    requires 0 <= x + way.Along(count - 1) < way.Span() && 0 <= y + way.Along(count - 1) < way.Span()
    ensures NoClobber(source, x, dest, y, way, count)
       <==> !(0 < way.Along(At(dest, y, way, 0) - At(source, x, way, 0)) < count)
  {
    hide At, Way.Turn;
    var gap := way.Along(At(dest, y, way, 0) - At(source, x, way, 0));
    forall i: nat, j: nat | i < count && j < count
      ensures At(dest, y, way, i) == At(source, x, way, j) <==> gap == j - i
    {
      InRange(dest, y, way, i);
      InRange(source, x, way, j);
    }
    if 0 < gap < count {
      assert At(dest, y, way, 0) == At(source, x, way, gap);
    }
  }

  lemma InRange(bank: Byte, offset: Word, way: Way, i: nat)
    requires offset < way.Span() && 0 <= offset + way.Along(i) < way.Span()
    ensures At(bank, offset, way, i) == At(bank, offset, way, 0) + way.Along(i)
  {
    AtParts(bank, offset, way, i);
    AtParts(bank, offset, way, 0);
  }

  // ----- the instruction

  function Opcode(up: bool): Byte {
    if up then 0x54 else 0x44
  }

  function WayOf(s: State, up: bool): Way {
    Way(up, s.X8())
  }

  /** Cell of the k-th byte of the instruction, as every execution but the last reads it: beyond the
      end of an even bank it runs on into the next, while the last execution wraps round. In an odd
      bank it wraps too, because the bank is or-ed into an address that already has its lowest bit. */
  function CodeCell(s: State, k: nat): (a: nat)
    ensures a < RAMSIZE
  {
    s.FetchAddress(s.pc + k) % RAMSIZE
  }

  function LastCell(s: State, k: nat): (a: nat)
    ensures a < RAMSIZE
  {
    s.FetchAddress((s.pc + k) % 0x10000) % RAMSIZE
  }

  ghost predicate MissesCode(s: State, a: nat) {
    a != CodeCell(s, 0) && a != CodeCell(s, 1) && a != CodeCell(s, 2) && a != LastCell(s, 1) && a != LastCell(s, 2)
  }

  /** The instruction is at the program counter, the index registers are as narrow as their width, and
      none of the writes before the last execution lands on the instruction. */
  ghost predicate Ready(s: State, up: bool) {
    && (s.X8() ==> s.x < 0x100 && s.y < 0x100)
    && s.Fetch(s.pc) == Opcode(up)
    && forall i: nat :: i < s.c ==> MissesCode(s, Written(s, up, i))
  }

  /** Where the i-th execution writes. */
  function Written(s: State, up: bool, i: nat): nat {
    At(s.Fetch(s.pc + 1), s.y, WayOf(s, up), i)
  }

  /** The state when one byte has been moved and more are to come. */
  function Moved(s: State, up: bool): State {
    var way, source, dest := WayOf(s, up), s.Fetch(s.pc + 2), s.Fetch(s.pc + 1);
    s.(ram := s.ram[At(dest, s.y, way, 0) := s.ram[At(source, s.x, way, 0)]], x := way.Next(s.x), y := way.Next(s.y),
       c := (s.c - 1) % 0x10000, dbr := dest)
  }

  /** Memory when all is done: C bytes between the banks of the repeated executions, one between those
      the last execution reads. */
  function FinishedRam(s: State, way: Way): Ram {
    var ram := CopyRun(s.ram, s.Fetch(s.pc + 2), s.x, s.Fetch(s.pc + 1), s.y, way, s.c);
    ram[At(s.Operand(1), s.y, way, s.c) := ram[At(s.Operand(2), s.x, way, s.c)]]
  }

  function Finished(s: State, up: bool): State {
    var way := WayOf(s, up);
    s.(ram := FinishedRam(s, way), x := way.Turn(s.x + way.Along(s.c + 1)), y := way.Turn(s.y + way.Along(s.c + 1)),
       c := 0xffff, dbr := s.Operand(1), pc := (s.pc + 3) % 0x10000)
  }

  lemma OpcodeMoves(opcode: Byte, up: bool)
    requires opcode == Opcode(up)
    ensures Decode(opcode) == Move(up)
  {
  }

  lemma MoveExecutes(s: State, i: Instr, up: bool)
    requires i == Move(up)
    ensures Execute(s, i) == MoveStep(s, up)
  {
  }

  lemma StepMoves(s: State, up: bool)
    requires s.Fetch(s.pc) == Opcode(up)
    ensures Step(s) == MoveStep(s, up)
  {
    hide Decode, Execute, MoveStep;
    OpcodeMoves(s.Fetch(s.pc), up);
    MoveExecutes(s, Decode(s.Fetch(s.pc)), up);
  }

  /** The RAM cells of the byte moved. */
  lemma FirstCell(bank: Byte, offset: Word, way: Way)
    requires offset < way.Span()
    ensures At(bank, offset, way, 0) == (offset + 0x10000 * bank) % RAMSIZE
  {
    assert offset + way.Along(0) == offset && way.Turn(offset) == offset;
  }

  lemma NextIs(s: State, up: bool)
    ensures var d := if up then 1 else -1; var u := s.(x := (s.x + d) % 0x10000, y := (s.y + d) % 0x10000).Narrow();
            u.x == WayOf(s, up).Next(s.x) && u.y == WayOf(s, up).Next(s.y) && u == s.(x := u.x, y := u.y)
  {
    NarrowTwice(s.x, if up then 1 else -1);
    NarrowTwice(s.y, if up then 1 else -1);
  }

  lemma NarrowTwice(v: Word, d: int)
    ensures (v + d) % 0x10000 % 0x100 == (v + d) % 0x100
  {
    assert (v + d) % 0x10000 == v + d - 0x100 * (0x100 * ((v + d) / 0x10000));
  }

  /** One execution with more to come, and the last. */
  lemma MoveStepMoves(s: State, up: bool)
    requires Ready(s, up)
    ensures s.c > 0 ==> MoveStep(s, up) == Moved(s, up)
    ensures s.c == 0 ==> MoveStep(s, up) == Finished(s, up)
  {
    hide At, Way.Turn, MoveStep, State.Fetch, State.Operand;
    var way := WayOf(s, up);
    Reached(s, up);
    FirstCell(s.Fetch(s.pc + 1), s.y, way);
    FirstCell(s.Fetch(s.pc + 2), s.x, way);
    FirstCell(s.Operand(1), s.y, way);
    FirstCell(s.Operand(2), s.x, way);
    StepParts(s, up, if s.c == 0 then s.Operand(1) else s.Fetch(s.pc + 1),
              if s.c == 0 then s.Operand(2) else s.Fetch(s.pc + 2));
  }

  lemma Reached(s: State, up: bool)
    requires Ready(s, up)
    ensures s.x < WayOf(s, up).Span() && s.y < WayOf(s, up).Span()
  {
  }

  /** Narrowing looks at the status and changes the index registers, nothing else. */
  lemma NarrowMoves(s: State, t: State, dest: Byte, d: int)
    requires t == s.(ram := t.ram)
    ensures var u := s.(x := (s.x + d) % 0x10000, y := (s.y + d) % 0x10000).Narrow();
            t.(dbr := dest, x := (s.x + d) % 0x10000, y := (s.y + d) % 0x10000, c := (s.c - 1) % 0x10000).Narrow()
            == t.(dbr := dest, x := u.x, y := u.y, c := (s.c - 1) % 0x10000)
  {
  }

  lemma StepParts(s: State, up: bool, dest: Byte, source: Byte)
    requires dest == if s.c == 0 then s.Operand(1) else s.Fetch(s.pc + 1)
    requires source == if s.c == 0 then s.Operand(2) else s.Fetch(s.pc + 2)
    ensures var way, t := WayOf(s, up), MoveStep(s, up);
            t == s.(ram := s.ram[(s.y + 0x10000 * dest) % RAMSIZE := s.ram[(s.x + 0x10000 * source) % RAMSIZE]],
                    x := way.Next(s.x), y := way.Next(s.y),
                    c := (s.c - 1) % 0x10000, dbr := dest, pc := if s.c == 0 then (s.pc + 3) % 0x10000 else s.pc)
  {
    hide State.Fetch, State.Operand, State.Narrow, Way.Turn, WayOf;
    NarrowMoves(s, s.Store(s.y + 0x10000 * dest, s.Load(s.x + 0x10000 * source)), dest, if up then 1 else -1);
    NextIs(s, up);
  }

  /** A write that misses the code leaves the instruction as it was. */
  lemma CodeKept(s: State, t: State, a: nat, v: Byte)
    requires a < RAMSIZE && MissesCode(s, a) && t.ram == s.ram[a := v] && t.pc == s.pc && t.pbr == s.pbr
    ensures t.Fetch(t.pc) == s.Fetch(s.pc) && t.Fetch(t.pc + 1) == s.Fetch(s.pc + 1) &&
            t.Fetch(t.pc + 2) == s.Fetch(s.pc + 2)
    ensures t.Operand(1) == s.Operand(1) && t.Operand(2) == s.Operand(2)
    ensures forall b :: MissesCode(t, b) == MissesCode(s, b)
  {
    hide CodeCell, LastCell, State.Fetch, State.Operand;
    SameCells(s, t);
    CodeRead(s);
    CodeRead(t);
  }

  lemma SameCells(s: State, t: State)
    requires t.pc == s.pc && t.pbr == s.pbr
    ensures forall k: nat :: CodeCell(t, k) == CodeCell(s, k) && LastCell(t, k) == LastCell(s, k)
  {
  }

  lemma CodeRead(s: State)
    ensures s.Fetch(s.pc) == s.ram[CodeCell(s, 0)]
    ensures s.Fetch(s.pc + 1) == s.ram[CodeCell(s, 1)] && s.Fetch(s.pc + 2) == s.ram[CodeCell(s, 2)]
    ensures s.Operand(1) == s.ram[LastCell(s, 1)] && s.Operand(2) == s.ram[LastCell(s, 2)]
  {
  }

  /** An execution that is not the last leaves everything in place for the next. */
  lemma StillReady(s: State, up: bool, t: State)
    requires Ready(s, up) && s.c > 0 && t == Moved(s, up)
    ensures Ready(t, up) && t.c == s.c - 1 && WayOf(t, up) == WayOf(s, up)
    ensures t.Fetch(t.pc + 1) == s.Fetch(s.pc + 1) && t.Fetch(t.pc + 2) == s.Fetch(s.pc + 2)
    ensures t.Operand(1) == s.Operand(1) && t.Operand(2) == s.Operand(2)
  {
    hide CodeCell, LastCell;
    var way, dest := WayOf(s, up), s.Fetch(s.pc + 1);
    var a := At(dest, s.y, way, 0);
    assert MissesCode(s, Written(s, up, 0)) && (s.c - 1) % 0x10000 == s.c - 1;
    CodeKept(s, t, a, s.ram[At(s.Fetch(s.pc + 2), s.x, way, 0)]);
    hide At, MissesCode;
    forall i: nat | i < t.c
      ensures MissesCode(t, Written(t, up, i))
    {
      AtShift(dest, s.y, way, i);
      assert i + 1 < s.c && MissesCode(s, Written(s, up, i + 1));
    }
  }

  /** What is left to do after one byte is what was left before. */
  lemma FinishesAlike(s: State, up: bool, t: State)
    requires Ready(s, up) && s.c > 0 && t == Moved(s, up)
    ensures Finished(t, up) == Finished(s, up)
  {
    hide At, Ready, Way.Turn, FinishedRam;
    var way := WayOf(s, up);
    StillReady(s, up, t);
    LeftAlike(s, up, t);
    Chain(s.x, way.Along(1), way.Along(t.c + 1), way);
    Chain(s.y, way.Along(1), way.Along(t.c + 1), way);
    assert way.Along(1) + way.Along(t.c + 1) == way.Along(s.c + 1);
  }

  lemma LeftAlike(s: State, up: bool, t: State)
    requires s.c > 0 && t == Moved(s, up) && t.c == s.c - 1 && WayOf(t, up) == WayOf(s, up)
    requires t.Fetch(t.pc + 1) == s.Fetch(s.pc + 1) && t.Fetch(t.pc + 2) == s.Fetch(s.pc + 2)
    requires t.Operand(1) == s.Operand(1) && t.Operand(2) == s.Operand(2)
    ensures FinishedRam(t, WayOf(s, up)) == FinishedRam(s, WayOf(s, up))
  {
    hide At, Way.Turn, State.Fetch, State.Operand;
    AtShift(s.Operand(1), s.y, WayOf(s, up), t.c);
    AtShift(s.Operand(2), s.x, WayOf(s, up), t.c);
  }

  /** Exactly C+1 executions perform the whole copy and step past the instruction. */
  lemma {:induction false} IterateMoves(step: State -> State, s: State, up: bool, goal: State)
    requires Ready(s, up)
    requires forall t: State :: t.Fetch(t.pc) == Opcode(up) ==> step(t) == MoveStep(t, up)
    requires goal == Iterate(step, s, s.c + 1)
    ensures goal == Finished(s, up)
    decreases s.c
  {
    hide MoveStep, Finished, Moved, At, MissesCode, WayOf, State.FetchAddress;
    assert s.Fetch(s.pc) == Opcode(up) && step(s) == MoveStep(s, up);
    MoveStepMoves(s, up);
    if s.c > 0 {
      var t := Moved(s, up);
      StillReady(s, up, t);
      FinishesAlike(s, up, t);
      IterateMoves(step, t, up, goal);
    } else {
      assert Iterate(step, step(s), 0) == step(s);
    }
  }

  /** From memory, wherever the instruction lies and whatever the width of the index registers. */
  lemma RunMoves(s: State, up: bool, t: State)
    requires Ready(s, up) && t == Run(s, s.c + 1)
    ensures t == Finished(s, up)
  {
    hide Step, MoveStep, Ready, Finished;
    forall u: State | u.Fetch(u.pc) == Opcode(up)
      ensures Step(u) == MoveStep(u, up)
    {
      StepMoves(u, up);
    }
    IterateMoves(Step, s, up, t);
  }

  /** The banks the last execution reads are those of the others. */
  predicate SameBanks(s: State) {
    s.Fetch(s.pc + 1) == s.Operand(1) && s.Fetch(s.pc + 2) == s.Operand(2)
  }

  lemma BanksAgree(s: State)
    requires s.pc + 2 < 0x10000 || (s.pbr % 2 == 1 && s.pc < 0x10000)
    ensures SameBanks(s)
  {
  }

  /** Over the end of an even bank there is a memory in which they are not. */
  lemma BanksDisagree(s: State) returns (t: State)
    requires s.pc < 0x10000 <= s.pc + 2 && s.pbr % 2 == 0
    ensures t == s.(ram := t.ram) && !SameBanks(t)
  {
    var wrapped, on := LastCell(s, 2), CodeCell(s, 2);
    CellsApart(s.pc + 2, s.pbr, on, wrapped);
    t := s.(ram := s.ram[wrapped := 0][on := 1]);
    SameCells(s, t);
    CodeRead(t);
  }

  lemma CellsApart(at: nat, bank: Byte, on: nat, wrapped: nat)
    requires 0x10000 <= at < 0x20000 && bank % 2 == 0
    requires on == (at % 0x10000 + 0x10000 * (bank + 1)) % RAMSIZE
    requires wrapped == (at % 0x10000 + 0x10000 * (bank as int)) % RAMSIZE
    ensures on != wrapped
  {
  }

  /** The banks are the same whatever is in memory exactly when the instruction does not run over the end of
      its bank, or the bank is odd. */
  lemma BanksExactly(s: State)
    requires s.pc < 0x10000
    ensures (forall t: State | t == s.(ram := t.ram) :: SameBanks(t)) <==> s.pc + 2 < 0x10000 || s.pbr % 2 == 1
  {
    if s.pc + 2 < 0x10000 || s.pbr % 2 == 1 {
      forall t: State | t == s.(ram := t.ram)
        ensures SameBanks(t)
      {
        BanksAgree(t);
      }
    } else {
      var t := BanksDisagree(s);
    }
  }

  lemma FinishedFields(s: State, up: bool, t: State)
    requires SameBanks(s) && t == Finished(s, up)
    ensures t.c == 0xffff && t.dbr == s.Operand(1) && t.pc == (s.pc + 3) % 0x10000
    ensures var way := WayOf(s, up);
            t.x == way.Turn(s.x + way.Along(s.c + 1)) && t.y == way.Turn(s.y + way.Along(s.c + 1))
    ensures t == s.(ram := t.ram, c := t.c, dbr := t.dbr, pc := t.pc, x := t.x, y := t.y)
    ensures t.ram == CopyRun(s.ram, s.Operand(2), s.x, s.Operand(1), s.y, WayOf(s, up), s.c + 1)
  {
    CopyRunLast(s.ram, s.Operand(2), s.x, s.Operand(1), s.y, WayOf(s, up), s.c);
  }

  /** The theorem in full: registers, program counter and memory after the move, when no byte
      is overwritten before it is read and the index registers reach every byte once. */
  lemma BlockMoveIsMemmove(s: State, up: bool, t: State)
    requires Ready(s, up) && SameBanks(s) && s.c < WayOf(s, up).Span()
    requires NoClobber(s.Operand(2), s.x, s.Operand(1), s.y, WayOf(s, up), s.c + 1)
    requires t == Run(s, s.c + 1)
    ensures t.c == 0xffff && t.dbr == s.Operand(1) && t.pc == (s.pc + 3) % 0x10000
    ensures var way := WayOf(s, up);
            t.x == way.Turn(s.x + way.Along(s.c + 1)) && t.y == way.Turn(s.y + way.Along(s.c + 1))
    ensures t == s.(ram := t.ram, c := t.c, dbr := t.dbr, pc := t.pc, x := t.x, y := t.y)
    ensures forall i: nat :: i < s.c + 1 ==>
            t.ram[At(s.Operand(1), s.y, WayOf(s, up), i)] == s.ram[At(s.Operand(2), s.x, WayOf(s, up), i)]
    ensures forall a :: 0 <= a < RAMSIZE
                        && (forall i: nat :: i < s.c + 1 ==> At(s.Operand(1), s.y, WayOf(s, up), i) != a)
                        ==> t.ram[a] == s.ram[a]
  {
    hide At, Finished, Ready, NoClobber, Run, CopyRun;
    RunMoves(s, up, t);
    FinishedFields(s, up, t);
    CopyRunCopies(s.ram, s.Operand(2), s.x, s.Operand(1), s.y, WayOf(s, up), s.c + 1);
  }
}
