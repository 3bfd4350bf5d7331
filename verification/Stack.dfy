/** PUSH and PULL as a bounded last-in first-out stack (emulator/65816core.c). */
module Stack {
  import opened Primitives
  import opened Machine

  datatype Op = PushByte(b: Byte) | PullByte

  /** How many bytes fit before the pointer comes round to where it started. */
  function Capacity(emul: bool): nat {
    if emul then 0x100 else 0x10000
  }

  /** Where the i-th byte pushed since the pointer was at `base` lives. */
  function Cell(emul: bool, base: Word, i: nat): Word {
    if emul then 0x100 + (base - i) % 0x100 else (base - i) % 0x10000
  }

  /** The bytes pushed and not yet pulled, oldest first, are all still in memory. */
  ghost predicate Stacked(s: State, base: Word, bytes: seq<Byte>) {
    && |bytes| <= Capacity(s.emul)
    && s.sp == Cell(s.emul, base, |bytes|)
    && forall i :: 0 <= i < |bytes| ==> s.Load(Cell(s.emul, base, i)) == bytes[i]
  }

  lemma CellsDistinct(emul: bool, base: Word, i: nat, j: nat)
    requires i < j < i + Capacity(emul)
    ensures Cell(emul, base, i) != Cell(emul, base, j)
  {
    var size := Capacity(emul);
    var d := (base - i) / size - (base - j) / size;
    assert (base - i) % size == (base - j) % size ==> j - i == d * size;
  }

  lemma CellMoves(emul: bool, base: Word, i: nat)
    requires i > 0
    ensures Cell(emul, base, i) == if emul then 0x100 + (Cell(emul, base, i - 1) - 1) % 0x100
            else (Cell(emul, base, i - 1) - 1) % 0x10000
    ensures Cell(emul, base, i - 1) == if emul then 0x100 + (Cell(emul, base, i) + 1) % 0x100
            else (Cell(emul, base, i) + 1) % 0x10000
  {
    if emul {
      InPage(base - i + 1, -1);
      InPage(base - i, 1);
    } else {
      InBank(base - i + 1, -1);
      InBank(base - i, 1);
    }
  }

  lemma InPage(a: int, d: int)
    ensures (0x100 + a % 0x100 + d) % 0x100 == (a + d) % 0x100
  {
    assert 0x100 + a % 0x100 + d == a + d + 0x100 * (1 - a / 0x100);
  }

  lemma InBank(a: int, d: int)
    ensures (a % 0x10000 + d) % 0x10000 == (a + d) % 0x10000
  {
    assert a % 0x10000 + d == a + d - 0x10000 * (a / 0x10000);
  }

  lemma PushStacks(s: State, base: Word, bytes: seq<Byte>, b: Byte)
    requires Stacked(s, base, bytes) && |bytes| < Capacity(s.emul)
    ensures Stacked(s.Push(b), base, bytes + [b])
  {
    hide Cell;
    CellMoves(s.emul, base, |bytes| + 1);
    var t := s.Push(b);
    forall i | 0 <= i < |bytes|
      ensures t.Load(Cell(s.emul, base, i)) == bytes[i]
    {
      CellsDistinct(s.emul, base, i, |bytes|);
    }
  }

  lemma PullUnstacks(s: State, base: Word, bytes: seq<Byte>)
    requires Stacked(s, base, bytes) && bytes != []
    ensures s.Top() == bytes[|bytes| - 1]
    ensures Stacked(s.Pulled(), base, bytes[..|bytes| - 1])
  {
    CellMoves(s.emul, base, |bytes|);
  }

  /** Only memory, stack pointer and mode matter. */
  lemma StackedSame(s: State, t: State, base: Word, bytes: seq<Byte>)
    requires Stacked(s, base, bytes) && t.ram == s.ram && t.sp == s.sp && t.emul == s.emul
    ensures Stacked(t, base, bytes)
  {
    forall i | 0 <= i < |bytes|
      ensures t.Load(Cell(t.emul, base, i)) == bytes[i]
    {
      assert s.Load(Cell(s.emul, base, i)) == bytes[i];
    }
  }

  /** The machine's run: the state it ends in and the bytes it pulled. */
  function RunMachine(s: State, ops: seq<Op>): (State, seq<Byte>)
    decreases ops
  {
    if ops == [] then (s, [])
    else match ops[0]
      case PushByte(b) => RunMachine(s.Push(b), ops[1..])
      case PullByte =>
        var (t, pulled) := RunMachine(s.Pulled(), ops[1..]);
        (t, [s.Top()] + pulled)
  }

  /** From this depth the operations never pull from empty nor go beyond the limit. */
  predicate Fits(depth: nat, ops: seq<Op>, limit: nat)
    decreases ops
  {
    depth <= limit &&
    (ops != [] ==>
       if ops[0].PushByte? then Fits(depth + 1, ops[1..], limit)
       else depth > 0 && Fits(depth - 1, ops[1..], limit))
  }

  /** The same operations on a list: what is left and what came off. */
  function RunList(bytes: seq<Byte>, ops: seq<Op>, limit: nat): (seq<Byte>, seq<Byte>)
    requires Fits(|bytes|, ops, limit)
    decreases ops
  {
    if ops == [] then (bytes, [])
    else match ops[0]
      case PushByte(b) => RunList(bytes + [b], ops[1..], limit)
      case PullByte =>
        var (left, pulled) := RunList(bytes[..|bytes| - 1], ops[1..], limit);
        (left, [bytes[|bytes| - 1]] + pulled)
  }

  /** Within its capacity the machine's stack is a list. */
  lemma {:induction false} MachineIsList(s: State, base: Word, bytes: seq<Byte>, ops: seq<Op>)
    requires Stacked(s, base, bytes) && Fits(|bytes|, ops, Capacity(s.emul))
    ensures var (t, pulled) := RunMachine(s, ops);
            var (left, expected) := RunList(bytes, ops, Capacity(s.emul));
            pulled == expected && t.emul == s.emul && Stacked(t, base, left)
    decreases ops
  {
    if ops != [] {
      match ops[0]
      case PushByte(b) =>
        PushStacks(s, base, bytes, b);
        MachineIsList(s.Push(b), base, bytes + [b], ops[1..]);
      case PullByte =>
        PullUnstacks(s, base, bytes);
        MachineIsList(s.Pulled(), base, bytes[..|bytes| - 1], ops[1..]);
    }
  }

  /** A run that takes off all it put on leaves the stack pointer where it was. */
  lemma BalancedRunRestores(s: State, ops: seq<Op>)
    requires (s.emul ==> 0x100 <= s.sp < 0x200) && Fits(0, ops, Capacity(s.emul))
    requires RunList([], ops, Capacity(s.emul)).0 == []
    ensures RunMachine(s, ops).0.sp == s.sp
    ensures RunMachine(s, ops).1 == RunList([], ops, Capacity(s.emul)).1
  {
    MachineIsList(s, s.sp, [], ops);
  }

  function Pushes(bytes: seq<Byte>): seq<Op> {
    seq(|bytes|, i requires 0 <= i < |bytes| => PushByte(bytes[i]))
  }

  function Pulls(n: nat): seq<Op> {
    seq(n, i => PullByte)
  }

  function Reverse(bytes: seq<Byte>): seq<Byte> {
    if bytes == [] then [] else [bytes[|bytes| - 1]] + Reverse(bytes[..|bytes| - 1])
  }

  lemma {:induction false} PullsReverse(bytes: seq<Byte>, limit: nat)
    requires |bytes| <= limit
    ensures Fits(|bytes|, Pulls(|bytes|), limit)
    ensures RunList(bytes, Pulls(|bytes|), limit) == ([], Reverse(bytes))
  {
    if bytes != [] {
      assert Pulls(|bytes|)[1..] == Pulls(|bytes| - 1);
      PullsReverse(bytes[..|bytes| - 1], limit);
    }
  }

  lemma {:induction false} PushesAppend(start: seq<Byte>, bytes: seq<Byte>, limit: nat, rest: seq<Op>)
    requires |start| + |bytes| <= limit && Fits(|start| + |bytes|, rest, limit)
    ensures Fits(|start|, Pushes(bytes) + rest, limit)
    ensures RunList(start, Pushes(bytes) + rest, limit) == RunList(start + bytes, rest, limit)
    decreases bytes
  {
    var ops := Pushes(bytes) + rest;
    if bytes == [] {
      assert ops == rest && start + bytes == start;
    } else {
      assert ops[1..] == Pushes(bytes[1..]) + rest;
      PushesAppend(start + [bytes[0]], bytes[1..], limit, rest);
      assert start + [bytes[0]] + bytes[1..] == start + bytes;
    }
  }

  /** Up to a full stack of bytes comes back in reverse order, in either mode. */
  lemma PushAllPullAll(s: State, bytes: seq<Byte>)
    requires (s.emul ==> 0x100 <= s.sp < 0x200) && |bytes| <= Capacity(s.emul)
    ensures var (t, pulled) := RunMachine(s, Pushes(bytes) + Pulls(|bytes|));
            pulled == Reverse(bytes) && t.sp == s.sp
  {
    PullsReverse(bytes, Capacity(s.emul));
    PushesAppend([], bytes, Capacity(s.emul), Pulls(|bytes|));
    assert [] + bytes == bytes;
    BalancedRunRestores(s, Pushes(bytes) + Pulls(|bytes|));
  }

  /** One byte more overwrites the oldest. */
  lemma CapacityIsExact(s: State, bytes: seq<Byte>, b: Byte)
    requires Stacked(s, s.sp, bytes) && |bytes| == Capacity(s.emul)
    ensures s.Push(b).Load(Cell(s.emul, s.sp, 0)) == b
  {
  }
}
