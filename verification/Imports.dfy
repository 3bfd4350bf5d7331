/** Importing variables: records linked at the front of their hash chains, and single-letter integers
    in a table of their own (scripts/old_testing/variables.py). */
module Imports {
  import opened Primitives
  import opened Tokens
  import opened Listing
  import opened Block
  import opened Records
  import opened Variables


  /** A signed 32-bit number in memory. */
  function LongAt(mem: seq<Byte>, addr: nat): int
    requires addr + 3 < |mem|
  {
    Signed(Read(mem, addr) + 0x10000 * (Read(mem, addr + 2) as int))
  }

  lemma LongStored(mem: seq<Byte>, addr: nat, n: int)
    requires addr + 3 < |mem| && Read(mem, addr) == n % 0x1_0000_0000 % 0x10000 &&
             Read(mem, addr + 2) == n % 0x1_0000_0000 / 0x10000
    ensures LongAt(mem, addr) == Signed(n)
  {
    assert n % 0x1_0000_0000 % 0x10000 + 0x10000 * (n % 0x1_0000_0000 / 0x10000) == n % 0x1_0000_0000;
  }

  /** Records one after another from one address to another, the oldest first. */
  ghost predicate InLine(order: seq<Placed>, from: int, end: int)
    decreases |order|
  {
    if order == [] then from == end
    else
      var last := order[|order| - 1];
      last.addr == end - RecordSize(last.v) && InLine(order[..|order| - 1], from, last.addr)
  }

  /** The records in the chains are these and no others. */
  ghost predicate Spread(chains: seq<seq<Placed>>, order: seq<Placed>) {
    && |chains| == SLOTS
    && (forall s, p :: 0 <= s < SLOTS && p in chains[s] ==> p in order)
    && (forall p :: p in order ==> p.name != [] && p in chains[Slot(p)])
  }

  ghost predicate PackedIn(chains: seq<seq<Placed>>, order: seq<Placed>, from: int, end: int) {
    InLine(order, from, end) && Spread(chains, order)
  }

  lemma PackedMore(chains: seq<seq<Placed>>, order: seq<Placed>, p: Placed, from: int, end: int)
    requires PackedIn(chains, order, from, end) && p.name != [] && p.addr == end
    ensures PackedIn(Linked(chains, p), order + [p], from, end + RecordSize(p.v))
  {
    hide Slot, RecordSize;
    assert (order + [p])[..|order|] == order;
  }

  class VariableBlock {
    const block: BasicBlock
    ghost var chains: seq<seq<Placed>>
    /** the records in the order in which they came */
    ghost var order: seq<Placed>

    ghost predicate Valid()
      reads this, block
    {
      && block.Valid()
      && AllChains(block.data, block.base, chains, block.Low() - block.base, block.High() - block.base)
    }

    /** The records lie between the program and the free space without a gap. */
    ghost predicate Packed()
      reads this, block
      requires PROGRAM <= |block.data| && AllFit(block.lines)
    {
      PackedIn(chains, order, block.base + block.End() + 6, block.Low())
    }

    constructor (block: BasicBlock)
      requires block.Valid() && forall i :: HASHTABLE <= i < HASHTABLE + 2 * SLOTS ==> block.data[i] == 0
      ensures Valid() && this.block == block && |chains| == SLOTS && forall s :: 0 <= s < SLOTS ==> chains[s] == []
      ensures order == [] && (block.Low() == block.base + block.End() + 6 ==> Packed())
    {
      this.block, chains, order := block, seq(SLOTS, _ => []), [];
    }

    /** The value of a single-letter integer. */
    function Fast(letter: nat): int
      requires letter < LETTERS && |block.data| >= PROGRAM
      reads block`data
    {
      LongAt(block.data, FASTVARIABLES + 4 * letter)
    }
  }

  // ----- changes to the tables below the program

  /** A change to the tables leaves the program in order and the records alone. */
  lemma TablesOnly(mem: seq<Byte>, now: seq<Byte>, from: int, to: int, low: nat, high: nat)
    requires Elsewhere(mem, now, from, to) && to <= PROGRAM <= high
    ensures Agree(mem, now, low, high)
  {
  }

  lemma SlotKept(mem: seq<Byte>, now: seq<Byte>, from: int, to: int, s: nat)
    requires Elsewhere(mem, now, from, to) && s < SLOTS && |mem| >= PROGRAM &&
             (HASHTABLE + 2 * s + 2 <= from || to <= HASHTABLE + 2 * s)
    ensures Read(now, HASHTABLE + 2 * s) == Read(mem, HASHTABLE + 2 * s)
  {
  }

  lemma ChainsKept(mem: seq<Byte>, now: seq<Byte>, base: nat, chains: seq<seq<Placed>>, low: nat, high: nat)
    requires AllChains(mem, base, chains, low, high) && Agree(mem, now, low, high) && |now| == |mem|
    requires forall s :: 0 <= s < SLOTS ==> Read(now, HASHTABLE + 2 * s) == Read(mem, HASHTABLE + 2 * s)
    ensures AllChains(now, base, chains, low, high)
  {
    hide Agree, Chain, Slot, Read;
    forall s | 0 <= s < SLOTS
      ensures ChainAt(now, base, chains[s], s, low, high)
    {
      assert ChainAt(mem, base, chains[s], s, low, high);
      ChainKept(mem, now, base, Read(mem, HASHTABLE + 2 * s), chains[s], low, high, low, high);
    }
  }

  lemma FirstReplaced(mem: seq<Byte>, now: seq<Byte>, addr: nat, rest: seq<Word>, link: Word)
    requires Stored(mem, addr, [0] + rest) && Elsewhere(mem, now, addr, addr + 2) && addr + 1 < |now| &&
             Read(now, addr) == link
    ensures Stored(now, addr, [link] + rest)
  {
    hide Stored, Elsewhere, Read;
    StoredSplit(mem, addr, [0], rest);
    StillStored(mem, now, addr, addr + 2, addr + 2, rest);
    StoredOne(now, addr, link);
    StoredSplit(now, addr, [link], rest);
  }

  /** The first word of a record is its link and nothing else. */
  lemma Relinked(mem: seq<Byte>, now: seq<Byte>, base: nat, p: Placed, link: Word, low: nat, high: nat)
    requires RecordAt(mem, base, p, 0, low, high) && low <= high
    requires Elsewhere(mem, now, p.addr - base, p.addr - base + 2) && p.addr - base + 1 < |now| &&
             Read(now, p.addr - base) == link
    ensures RecordAt(now, base, p, link, low, high)
  {
    var addr := p.addr - base;
    RecordLength(p, 0);
    hide Stored, RecordRest, TextsAt, Elsewhere, RecordSize, Counted, Read;
    FirstReplaced(mem, now, addr, RecordRest(p), link);
    StillStored(mem, now, addr, addr + 2, p.id - base, p.name);
    if p.v.values.Texts? {
      ElsewhereAgrees(mem, now, addr, addr + 2, high);
      TextsKept(mem, now, base, p.texts, p.v.values.texts, addr, high, high);
    }
  }

  lemma ElsewhereAgrees(mem: seq<Byte>, now: seq<Byte>, from: nat, to: nat, high: nat)
    requires Elsewhere(mem, now, from, to) && to <= high
    ensures Agree(mem, now, from, high)
  {
  }

  /** What the words of a record say about where it hangs. */
  lemma RecordFacts(mem: seq<Byte>, base: nat, p: Placed, low: nat, high: nat)
    requires RecordAt(mem, base, p, 0, low, high)
    ensures p.name != [] && RecordSize(p.v) >= 4
    ensures p.id - base + 1 < |mem| && SlotOf(Read(mem, p.id - base)) == Slot(p)
    ensures base + PROGRAM <= p.addr && p.addr - base + 4 <= low && p.addr - base + 1 < |mem| && base + high <= p.id
  {
    assert Read(mem, p.id - base + 2 * 0) == p.name[0];
  }

  lemma AgreeOn(mem: seq<Byte>, next: seq<Byte>, now: seq<Byte>, from: int, to: int, low: nat, high: nat)
    requires Agree(mem, next, low, high) && Elsewhere(next, now, from, to) &&
             (to <= PROGRAM || low <= from) && to <= high
    ensures Agree(mem, now, low, high)
  {
  }

  lemma KeptAgree(mem: seq<Byte>, now: seq<Byte>, low: nat, high: nat)
    requires Kept(mem, now, low, high) && FIRST_FREE <= high
    ensures Agree(mem, now, low, high) && |mem| == |now|
  {
  }

  lemma AgreeBelow(mem: seq<Byte>, now: seq<Byte>, low: nat, high: nat, end: nat)
    requires Agree(mem, now, low, high) && end <= low
    ensures Agree(mem, now, end, |mem|) && |now| == |mem|
  {
  }

  lemma KeptSlot(mem: seq<Byte>, now: seq<Byte>, low: nat, high: nat, s: nat)
    requires Kept(mem, now, low, high) && PROGRAM <= low && PROGRAM <= |mem| && s < SLOTS
    ensures Read(now, HASHTABLE + 2 * s) == Read(mem, HASHTABLE + 2 * s)
  {
  }

  lemma ReadElsewhere(mem: seq<Byte>, now: seq<Byte>, from: int, to: int, addr: nat)
    requires Elsewhere(mem, now, from, to) && addr + 1 < |mem| && (addr + 2 <= from || to <= addr)
    ensures Read(now, addr) == Read(mem, addr)
  {
  }

  /** The slots after the two writes that link a record in. */
  lemma SlotsLinked(mem: seq<Byte>, mem3: seq<Byte>, mem4: seq<Byte>, mem5: seq<Byte>, addr: nat, low: nat,
                    high: nat, s: nat)
    requires Kept(mem, mem3, low, high) && PROGRAM <= low <= addr && PROGRAM <= |mem| && s < SLOTS
    requires Elsewhere(mem3, mem4, addr, addr + 2) && Elsewhere(mem4, mem5, HASHTABLE + 2 * s, HASHTABLE + 2 * s + 2)
    ensures |mem5| == |mem| && forall k :: 0 <= k < SLOTS && k != s ==>
            Read(mem5, HASHTABLE + 2 * k) == Read(mem, HASHTABLE + 2 * k)
  {
    forall k | 0 <= k < SLOTS && k != s
      ensures Read(mem5, HASHTABLE + 2 * k) == Read(mem, HASHTABLE + 2 * k)
    {
      KeptSlot(mem, mem3, low, high, k);
      ReadElsewhere(mem3, mem4, addr, addr + 2, HASHTABLE + 2 * k);
      ReadElsewhere(mem4, mem5, HASHTABLE + 2 * s, HASHTABLE + 2 * s + 2, HASHTABLE + 2 * k);
    }
  }

  /** The two writes that link a record in. */
  function Patched(mem: seq<Byte>, addr: nat, slot: nat, target: Word): seq<Byte>
    requires addr + 1 < |mem| && slot + 1 < |mem|
  {
    Put(Put(mem, addr, Read(mem, slot)), slot, target)
  }

  lemma PatchedAgrees(mem: seq<Byte>, mem3: seq<Byte>, mem5: seq<Byte>, low: nat, high: nat, slot: nat, target: Word)
    requires Kept(mem, mem3, low, high) && PROGRAM <= low && low + 2 <= high <= |mem| == |mem3|
    requires FIRST_FREE <= slot && slot + 2 <= PROGRAM && mem5 == Patched(mem3, low, slot, target)
    ensures Agree(mem, mem5, low, high) && |mem5| == |mem|
    ensures Read(mem5, LOWPTR) == Read(mem3, LOWPTR) && Read(mem5, HIGHPTR) == Read(mem3, HIGHPTR)
  {
    var mem4 := Put(mem3, low, Read(mem3, slot));
    assert Elsewhere(mem3, mem4, low, low + 2) && Elsewhere(mem4, mem5, slot, slot + 2);
    hide Kept, Agree, Elsewhere, Put, Read;
    KeptAgree(mem, mem3, low, high);
    AgreeOn(mem, mem3, mem4, low, low + 2, low, high);
    AgreeOn(mem, mem4, mem5, slot, slot + 2, low, high);
    ReadElsewhere(mem3, mem4, low, low + 2, LOWPTR);
    ReadElsewhere(mem3, mem4, low, low + 2, HIGHPTR);
    ReadElsewhere(mem4, mem5, slot, slot + 2, LOWPTR);
    ReadElsewhere(mem4, mem5, slot, slot + 2, HIGHPTR);
  }

  /** The single-letter integers are the same. */
  ghost predicate SameFast(mem: seq<Byte>, now: seq<Byte>) {
    |mem| == |now| && forall i :: FASTVARIABLES <= i < HASHTABLE && i < |mem| ==> mem[i] == now[i]
  }

  lemma PatchedFast(mem: seq<Byte>, mem3: seq<Byte>, mem5: seq<Byte>, low: nat, high: nat, slot: nat, target: Word)
    requires Kept(mem, mem3, low, high) && PROGRAM <= low && low + 1 < |mem3| && HASHTABLE <= slot && slot + 1 < |mem3|
    requires mem5 == Patched(mem3, low, slot, target)
    ensures SameFast(mem, mem5)
  {
    hide Read;
  }

  lemma LinkedUp(mem: seq<Byte>, mem3: seq<Byte>, mem5: seq<Byte>, base: nat, chains: seq<seq<Placed>>,
                 p: Placed, s: nat,
                 low: nat, high: nat, low': nat, high': nat)
    requires p.name != [] && s == Slot(p) && AllChains(mem, base, chains, low, high) && Kept(mem, mem3, low, high)
    requires PROGRAM <= low && base + low == p.addr && low + 4 <= low' <= high' <= high <= |mem| && |mem3| == |mem|
    requires RecordAt(mem3, base, p, 0, low', high')
    requires mem5 == Patched(mem3, low, HASHTABLE + 2 * s, p.addr) && Agree(mem, mem5, low, high)
    ensures s < |chains| && AllChains(mem5, base, chains[s := [p] + chains[s]], low', high')
  {
    var slot := HASHTABLE + 2 * s;
    var link := Read(mem3, slot);
    var mem4 := Put(mem3, low, link);
    assert |chains| == SLOTS;
    hide Kept, Agree, RecordAt, AllChains, Slot, Read, Elsewhere;
    KeptSlot(mem, mem3, low, high, s);
    ReadElsewhere(mem4, mem5, slot, slot + 2, low);
    Relinked(mem3, mem4, base, p, link, low', high');
    TablesOnly(mem4, mem5, slot, slot + 2, low', high');
    RecordKept(mem4, mem5, base, p, link, low', high', low', high');
    SlotsLinked(mem, mem3, mem4, mem5, low, low, high, s);
    ChainsLinked(mem, mem5, base, chains, p, s, low, high, low', high');
  }

  lemma LongWritten(mem: seq<Byte>, now: seq<Byte>, addr: nat, n: int)
    requires addr + 3 < |mem|
    requires now == Put(Put(mem, addr, n % 0x1_0000_0000 % 0x10000), addr + 2, n % 0x1_0000_0000 / 0x10000)
    ensures Elsewhere(mem, now, addr, addr + 4) && LongAt(now, addr) == Signed(n)
  {
    var next := Put(mem, addr, n % 0x1_0000_0000 % 0x10000);
    assert Elsewhere(next, now, addr + 2, addr + 4);
    ReadElsewhere(next, now, addr + 2, addr + 4, addr);
    hide Put, Read;
    LongStored(now, addr, n);
  }

  method WriteLong(block: BasicBlock, offset: nat, n: int)
    requires offset + 3 < |block.data|
    modifies block`data
    ensures Elsewhere(old(block.data), block.data, offset, offset + 4) && LongAt(block.data, offset) == Signed(n)
  {
    hide Put, Read, LongAt, Elsewhere;
    ghost var was := block.data;
    var bits := n % 0x1_0000_0000;
    block.WriteWord(block.base + offset, bits % 0x10000);
    block.WriteWord(block.base + offset + 2, bits / 0x10000);
    LongWritten(was, block.data, offset, n);
  }

  /** Writing between the pointers and the hash table changes neither program nor chains. */
  lemma TablesValid(varBlock: VariableBlock, was: seq<Byte>, from: int, to: int)
    requires HoldsProgram(varBlock.block, was) && PROGRAM <= |was| && Elsewhere(was, varBlock.block.data, from, to)
    requires FIRST_FREE <= from <= to <= HASHTABLE && AllFit(varBlock.block.lines)
    requires var low, high := Read(was, LOWPTR) - varBlock.block.base, Read(was, HIGHPTR) - varBlock.block.base;
             varBlock.block.End() + 6 <= low && PROGRAM <= varBlock.block.End() && low <= high <= |was| &&
               AllChains(was, varBlock.block.base, varBlock.chains, low, high)
    ensures varBlock.Valid()
  {
    hide Agree, Elsewhere, HoldsProgram, AllChains, BasicBlock.Valid, Area, AllFit, Fits, Read;
    var now, end := varBlock.block.data, varBlock.block.End();
    var low, high := Read(was, LOWPTR) - varBlock.block.base, Read(was, HIGHPTR) - varBlock.block.base;
    TablesOnly(was, now, from, to, low, high);
    ElsewhereKept(was, now, from, to);
    AgreeBelow(was, now, low, high, end + 6);
    StaysInOrder(was, varBlock.block);
    forall s | 0 <= s < SLOTS
      ensures Read(now, HASHTABLE + 2 * s) == Read(was, HASHTABLE + 2 * s)
    {
      SlotKept(was, now, from, to, s);
    }
    ChainsKept(was, now, varBlock.block.base, varBlock.chains, low, high);
  }

  class Variable {
    const v: Var
    var memoryVariableCreated: bool
    var hashPointer: int

    constructor (v: Var)
      ensures this.v == v && !memoryVariableCreated
    {
      this.v, memoryVariableCreated, hashPointer := v, false, 0;
    }

    /** The slot for a name: its type in two bits above the low four of its first word. */
    method HashAddress(block: BasicBlock, firstToken: Word) returns (addr: int)
      ensures addr == block.base + HASHTABLE + 2 * SlotOf(firstToken)
      ensures addr == block.base + 0x80 + 0x20 * (firstToken / 0x1000 % 4) + 2 * (firstToken % 16)
    {
      addr := block.base + 0x80;
      addr := addr + firstToken / 0x1000 % 4 * 16 * 2;
      addr := addr + firstToken % 16 * 2;
    }

    /** The link of the slot goes into the record, and the record's address into the slot. */
    method PatchIn(block: BasicBlock, address: Word, firstToken: Word)
      requires PROGRAM <= |block.data| && block.base <= address && address - block.base + 1 < |block.data|
      modifies this`hashPointer, block`data
      ensures hashPointer == block.base + HASHTABLE + 2 * SlotOf(firstToken)
      ensures block.data == Patched(old(block.data), address - block.base, HASHTABLE + 2 * SlotOf(firstToken), address)
    {
      hide Put, Read, SlotOf, Elsewhere;
      hashPointer := HashAddress(block, firstToken);
      var link := block.ReadWord(hashPointer);
      block.WriteWord(address, link);
      block.WriteWord(hashPointer, address);
    }

    method LinkIn(varBlock: VariableBlock, p: Placed, ghost was: seq<Byte>, ghost low: nat, ghost high: nat)
      requires p.v == v && Pending(varBlock.block, varBlock.block.data, was, varBlock.chains, p, low, high)
      modifies this`hashPointer, varBlock`chains, varBlock.block`data
      ensures varBlock.Valid() && p.name != [] && |old(varBlock.chains)| == SLOTS && |varBlock.block.data| == |was|
      ensures hashPointer == varBlock.block.base + HASHTABLE + 2 * Slot(p)
      ensures varBlock.chains == Linked(old(varBlock.chains), p)
      ensures HIGHPTR + 1 < |was| == old(|varBlock.block.data|) &&
              varBlock.block.Low() == old(varBlock.block.Low()) && varBlock.block.High() == old(varBlock.block.High())
      ensures SameFast(was, varBlock.block.data)
    {
      hide SameFast, BasicBlock.Valid, Pending, Patched, AllChains, Slot, SlotOf, Put;
      var block := varBlock.block;
      ghost var mem3, chains := block.data, varBlock.chains;
      PendingFacts(block, mem3, was, chains, p, low, high);
      var firstToken := block.ReadWord(p.id);
      PatchIn(block, p.addr, firstToken);
      ghost var linked := Linked(chains, p);
      varBlock.chains := linked;
      AfterPatch(block, mem3, block.data, was, chains, p, low, high);
    }

    /** A single-letter integer is written where its letter says. */
    method ImportFast(varBlock: VariableBlock)
      requires varBlock.Valid() && IsFast(v) && 1 <= v.chars[0] <= LETTERS
      modifies varBlock.block`data
      ensures varBlock.Valid() && varBlock.Fast(v.chars[0] - 1) == Signed(v.values.longs[0])
      ensures FastFrame(varBlock, old(varBlock.block.data)) && varBlock.block.Low() == old(varBlock.block.Low())
      ensures var at := 0x10 + 4 * (v.chars[0] - 1);
              |varBlock.block.data| > at + 3 && LongAt(varBlock.block.data, at) == Signed(v.values.longs[0])
    {
      hide BasicBlock.Valid, AllChains, HoldsProgram, LongAt, Signed, Elsewhere;
      InOrder(varBlock.block);
      ghost var was := varBlock.block.data;
      var offset := FASTVARIABLES + (v.chars[0] - 1) * 4;
      WriteLong(varBlock.block, offset, v.values.longs[0]);
      TablesValid(varBlock, was, offset, offset + 4);
      ReadElsewhere(was, varBlock.block.data, offset, offset + 4, LOWPTR);
      InOrder(varBlock.block);
    }

    /** Everything outside the variable's own four bytes is the same. */
    ghost predicate FastFrame(varBlock: VariableBlock, was: seq<Byte>)
      reads varBlock.block`data
      requires IsFast(v) && v.chars[0] >= 1
    {
      Elsewhere(was, varBlock.block.data, FASTVARIABLES + 4 * (v.chars[0] - 1), FASTVARIABLES + 4 * v.chars[0])
    }

    /** A variable with a record of its own: record, name and strings, and the link. */
    method ImportRecord(varBlock: VariableBlock) returns (ok: bool, ghost p: Placed)
      requires varBlock.Valid() && Nameable(v)
      modifies this, varBlock`chains, varBlock`order, varBlock.block`data, varBlock.block.tokeniser
      ensures memoryVariableCreated
      ensures ok == (old(varBlock.block.Low()) + RecordSize(v) + SPARE <
                         old(varBlock.block.High()) - HighBytes(NameIn(varBlock.block, v), v))
      ensures ok ==>
                && varBlock.Valid() && |old(varBlock.chains)| == SLOTS && p.v == v &&
                  p.addr == old(varBlock.block.Low())
                && p.name == NameIn(varBlock.block, v) && p.id == old(varBlock.block.High()) - 2 * |p.name|
                && varBlock.chains == Linked(old(varBlock.chains), p) &&
                  hashPointer == varBlock.block.base + HASHTABLE + 2 * Slot(p)
                && varBlock.block.Low() == p.addr + RecordSize(v) &&
                  varBlock.block.High() == old(varBlock.block.High()) - HighBytes(p.name, v)
                && SameFast(old(varBlock.block.data), varBlock.block.data)
                && varBlock.order == old(varBlock.order) + [p] && (old(varBlock.Packed()) ==> varBlock.Packed())
    {
      hide BasicBlock.Valid, AllChains, HoldsProgram, SameFast, RecordAt, Kept, RecordSize, HighBytes, NameIn, Slot,
        Pending, Elsewhere, TableFits, Nameable, SlotOf, PackedIn, Linked, Read;
      InOrder(varBlock.block);
      memoryVariableCreated := true;
      ghost var was, base, end := varBlock.block.data, varBlock.block.base, varBlock.block.End();
      ghost var low, high := varBlock.block.Low() - base, varBlock.block.High() - base;
      var placed;
      placed, ok := PlaceRecord(varBlock.block, v);
      p := placed;
      if !ok {
        return;
      }
      KeptLength(was, varBlock.block.data, low, high);
      assert Pending(varBlock.block, varBlock.block.data, was, varBlock.chains, p, low, high) by {
        InOrder(varBlock.block);
        IsPending(varBlock.block, varBlock.block.data, was, varBlock.chains, p, low, high);
      }
      LinkIn(varBlock, placed, was, low, high);
      if old(varBlock.Packed()) {
        PackedMore(old(varBlock.chains), varBlock.order, p, base + end + 6, p.addr);
      }
      varBlock.order := varBlock.order + [p];
    }

    /** Brings the variable into the block. Single letters always fit; other variables need room for
        their record, name and strings. The flag that should stop more code being added is set on the
        variable, not on the block. */
    method ImportVariable(varBlock: VariableBlock) returns (ok: bool, ghost p: Placed)
      requires varBlock.Valid() && Nameable(v)
      modifies this, varBlock`chains, varBlock`order, varBlock.block`data, varBlock.block.tokeniser
      ensures IsFast(v) ==>
                && ok && varBlock.Valid() && memoryVariableCreated == old(memoryVariableCreated)
                && varBlock.chains == old(varBlock.chains) && varBlock.order == old(varBlock.order)
                && (old(varBlock.Packed()) ==> varBlock.Packed())
                && varBlock.Fast(v.chars[0] - 1) == Signed(v.values.longs[0]) &&
                  FastFrame(varBlock, old(varBlock.block.data))
      ensures !IsFast(v) ==>
                && memoryVariableCreated
                && ok == (old(varBlock.block.Low()) + RecordSize(v) + SPARE <
                           old(varBlock.block.High()) - HighBytes(NameIn(varBlock.block, v), v))
      ensures !IsFast(v) && ok ==>
                && varBlock.Valid() && |old(varBlock.chains)| == SLOTS && p.v == v &&
                  p.addr == old(varBlock.block.Low())
                && p.name == NameIn(varBlock.block, v) && p.id == old(varBlock.block.High()) - 2 * |p.name|
                && varBlock.chains == Linked(old(varBlock.chains), p) &&
                  hashPointer == varBlock.block.base + HASHTABLE + 2 * Slot(p)
                && varBlock.block.Low() == p.addr + RecordSize(v) &&
                  varBlock.block.High() == old(varBlock.block.High()) - HighBytes(p.name, v)
                && SameFast(old(varBlock.block.data), varBlock.block.data)
                && varBlock.order == old(varBlock.order) + [p] && (old(varBlock.Packed()) ==> varBlock.Packed())
    {
      hide BasicBlock.Valid, VariableBlock.Valid, SameFast, RecordSize, HighBytes, NameIn, Slot, SlotOf, LongAt, Signed,
        Elsewhere;
      p := Placed(v, [], 0, 0, []);
      if IsFast(v) {
        ImportFast(varBlock);
        ok := true;
      } else {
        ok, p := ImportRecord(varBlock);
      }
    }
  }

  /** The chains with a new record at the front of its own. */
  ghost function Linked(chains: seq<seq<Placed>>, p: Placed): seq<seq<Placed>>
    requires |chains| == SLOTS && p.name != []
  {
    chains[Slot(p) := [p] + chains[Slot(p)]]
  }

  /** A record is in place in this memory but not yet linked; before it, in was, the chains were whole. */
  ghost predicate Pending(block: BasicBlock, mem: seq<Byte>, was: seq<Byte>, chains: seq<seq<Placed>>,
                          p: Placed, low: nat, high: nat)
    reads block`lines, block`lastProgramLineNumber
  {
    && HoldsProgram(block, was) && AllChains(was, block.base, chains, low, high) && Kept(was, mem, low, high)
    && block.base + low == p.addr && block.End() + 6 <= low && high <= |was|
    && 0 <= Read(mem, LOWPTR) - block.base <= Read(mem, HIGHPTR) - block.base <= high
    && RecordAt(mem, block.base, p, 0, Read(mem, LOWPTR) - block.base, Read(mem, HIGHPTR) - block.base)
  }

  lemma IsPending(block: BasicBlock, mem: seq<Byte>, was: seq<Byte>, chains: seq<seq<Placed>>, p: Placed,
                  low: nat, high: nat)
    requires HoldsProgram(block, was) && AllFit(block.lines) &&
             AllChains(was, block.base, chains, low, high) && Kept(was, mem, low, high)
    requires block.base + low == p.addr && block.End() + 6 <= low && high <= |was| && FIRST_FREE <= |mem|
    requires 0 <= Read(mem, LOWPTR) - block.base <= Read(mem, HIGHPTR) - block.base <= high
    requires RecordAt(mem, block.base, p, 0, Read(mem, LOWPTR) - block.base, Read(mem, HIGHPTR) - block.base)
    ensures Pending(block, mem, was, chains, p, low, high)
  {
  }

  lemma PendingFacts(block: BasicBlock, mem: seq<Byte>, was: seq<Byte>, chains: seq<seq<Placed>>, p: Placed,
                     low: nat, high: nat)
    requires Pending(block, mem, was, chains, p, low, high)
    ensures |mem| == |was| && PROGRAM <= |was| && |chains| == SLOTS && block.base + |was| < 0x10000 && PROGRAM <= low
    ensures AllFit(block.lines) && block.End() + 6 <= low
    ensures p.name != [] && block.base <= p.id && p.id - block.base + 1 < |mem| &&
            SlotOf(Read(mem, p.id - block.base)) == Slot(p)
    ensures block.base <= p.addr && low + 4 <= Read(mem, LOWPTR) - block.base && p.addr - block.base + 1 < |mem|
  {
    hide RecordAt, Slot, SlotOf;
    RecordFacts(mem, block.base, p, Read(mem, LOWPTR) - block.base, Read(mem, HIGHPTR) - block.base);
  }

  lemma AfterPatch(block: BasicBlock, mem: seq<Byte>, now: seq<Byte>, was: seq<Byte>,
                   chains: seq<seq<Placed>>, p: Placed, low: nat, high: nat)
    requires Pending(block, mem, was, chains, p, low, high) && |mem| == |was| && PROGRAM <= |was| &&
             |chains| == SLOTS && p.name != []
    requires p.addr - block.base + 1 < |mem| &&
             block.data == now == Patched(mem, p.addr - block.base, HASHTABLE + 2 * Slot(p), p.addr)
    ensures block.Valid() && |now| == |was| && SameFast(was, now) && block.Low() == Read(mem, LOWPTR) &&
            block.High() == Read(mem, HIGHPTR)
    ensures AllChains(now, block.base, Linked(chains, p), block.Low() - block.base, block.High() - block.base)
  {
    hide RecordAt, Slot, SlotOf, Kept, Agree, Patched, AllChains, HoldsProgram, BasicBlock.Valid, Area,
      Fits, AllFit, SameFast;
    var base, s := block.base, Slot(p);
    PendingFacts(block, mem, was, chains, p, low, high);
    PatchedAgrees(was, mem, now, low, high, HASHTABLE + 2 * s, p.addr);
    PatchedFast(was, mem, now, low, high, HASHTABLE + 2 * s, p.addr);
    LinkedUp(was, mem, now, base, chains, p, s, low, high, Read(mem, LOWPTR) - base, Read(mem, HIGHPTR) - base);
    AgreeBelow(was, now, low, high, block.End() + 6);
    StaysInOrder(was, block);
  }
}
