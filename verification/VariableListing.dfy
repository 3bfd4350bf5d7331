/** Listing the variables by walking the hash chains (scripts/old_testing/dispvariables.py). */
module VariableListing {
  import opened Primitives
  import opened Chars
  import opened Tokens
  import opened Lexer
  import opened Listing
  import opened Block
  import opened Records
  import opened Variables
  import opened Imports

  // ----- names

  function DiChar(c: nat): string {
    if c == 0 then "" else if c <= 26 then [(c + 96) as char] else Digits(c - 27)
  }

  lemma CharsShown(chars: seq<nat>)
    requires Letters(chars) && 1 <= |chars| <= 2
    ensures CodeText(chars) == DiChar(chars[0]) + DiChar(if |chars| == 1 then 0 else chars[1])
  {
    DigitShown(chars[0]);
    if |chars| == 2 {
      DigitShown(chars[1]);
    }
  }

  lemma DigitShown(c: nat)
    requires 1 <= c <= 36
    ensures DiChar(c) == [CodeChar(c)]
  {
  }

  /** What one word of a name shows and where the name goes on. */
  lemma NameWordShown(mem: seq<Byte>, pos: nat, chars: seq<nat>, dollar: bool, paren: bool, token: Word)
    requires chars != [] && Letters(chars) && Stored(mem, pos, NameWords(chars, dollar, paren))
    requires pos + 1 < |mem| && token == Read(mem, pos)
    ensures DiChar(token % 0x800 % 45) +
            DiChar(token % 0x800 / 45) == CodeText(if |chars| > 2 then chars[..2] else chars)
    ensures (token / 0x800 % 2 == 1) == (|chars| > 2)
    ensures (token / 0x2000 % 2 == 1) == dollar && (token / 0x1000 % 2 == 1) == paren
  {
    var second := if |chars| == 1 then 0 else chars[1];
    MarksRead(dollar, paren);
    assert token == NameWords(chars, dollar, paren)[0] by {
      assert Read(mem, pos + 2 * 0) == NameWords(chars, dollar, paren)[0];
    }
    WordOfName(chars[0], second, Marks(dollar, paren), |chars| > 2, token);
    CharsShown(if |chars| > 2 then chars[..2] else chars);
  }

  lemma NameGoesOn(mem: seq<Byte>, pos: nat, chars: seq<nat>, dollar: bool, paren: bool)
    requires |chars| > 2 && Letters(chars) && Stored(mem, pos, NameWords(chars, dollar, paren))
    ensures Stored(mem, pos + 2, NameWords(chars[2..], dollar, paren)) &&
            CodeText(chars) == CodeText(chars[..2]) + CodeText(chars[2..])
  {
    var ws := NameWords(chars, dollar, paren);
    assert ws == [ws[0]] + ws[1..] && ws[1..] == NameWords(chars[2..], dollar, paren);
    StoredSplit(mem, pos, [ws[0]], ws[1..]);
    CodeTextSplit(chars);
  }

  method DecodeIdentifier(block: BasicBlock, start: nat, ghost v: Var) returns (name: string)
    requires Named(v) && block.base <= start
    requires Stored(block.data, start - block.base, NameWords(v.chars, v.values.Texts?, v.isArray))
    ensures name == ShownName(v)
  {
    hide Stored, NameWords, CodeText, Read, DiChar;
    var s, addr, done := "", start, false;
    ghost var dollar, paren, rest := v.values.Texts?, v.isArray, v.chars;
    NameStored(block.data, start - block.base, rest, dollar, paren);
    var firstToken := block.ReadWord(addr);
    NameWordShown(block.data, start - block.base, rest, dollar, paren, firstToken);
    assert "" + CodeText(rest) == CodeText(rest);
    while !done
      invariant Letters(rest) && block.base <= addr
      invariant !done ==>
                rest != [] && Stored(block.data, addr - block.base, NameWords(rest, dollar, paren)) &&
                s + CodeText(rest) == CodeText(v.chars)
      invariant done ==> s == CodeText(v.chars)
      decreases |rest|, !done
    {
      NameStored(block.data, addr - block.base, rest, dollar, paren);
      var token := block.ReadWord(addr);
      var t1 := token % 0x800;
      NameWordShown(block.data, addr - block.base, rest, dollar, paren, token);
      ghost var before := s;
      s := s + (DiChar(t1 % 45) + DiChar(t1 / 45));
      done := token / 0x800 % 2 == 0;
      if |rest| > 2 {
        NameGoesOn(block.data, addr - block.base, rest, dollar, paren);
        assert before + (CodeText(rest[..2]) + CodeText(rest[2..])) == s + CodeText(rest[2..]);
        rest := rest[2..];
      }
      addr := addr + 2;
    }
    if firstToken / 0x2000 % 2 == 1 {
      s := s + "$";
    }
    if firstToken / 0x1000 % 2 == 1 {
      s := s + "()";
    }
    name := Lower(s);
    ShownIsLower(v);
    assert CodeText(v.chars) + "" == CodeText(v.chars) && s == ShownName(v);
  }

  lemma NameStored(mem: seq<Byte>, pos: nat, chars: seq<nat>, dollar: bool, paren: bool)
    requires chars != [] && Letters(chars) && Stored(mem, pos, NameWords(chars, dollar, paren))
    ensures pos + 1 < |mem|
  {
  }

  lemma ShownIsLower(v: Var)
    requires Named(v)
    ensures Lower(ShownName(v)) == ShownName(v)
  {
    CodesOfText(v.chars);
    var s, name := ShownName(v), CodeText(v.chars);
    forall i | 0 <= i < |s|
      ensures Lower(s)[i] == s[i]
    {
      assert i < |name| ==> Lower(name)[i] == name[i];
    }
  }

  // ----- values

  function DataOffset(v: Var): nat {
    if v.isArray then 6 else 4
  }

  lemma DataStored(mem: seq<Byte>, pos: nat, p: Placed, link: Word)
    requires Stored(mem, pos, RecordWords(p, link))
    ensures Stored(mem, pos + DataOffset(p.v), DataWords(p)) && pos + 3 < |mem| && Read(mem, pos + 2) == p.id
    ensures p.v.isArray ==> pos + 5 < |mem| && Read(mem, pos + 4) == (Count(p.v) - 1) % 0x10000
  {
    var head := [link, p.id] + if p.v.isArray then [(Count(p.v) - 1) % 0x10000] else [];
    assert RecordWords(p, link) == head + DataWords(p);
    StoredSplit(mem, pos, head, DataWords(p));
    assert Read(mem, pos + 2 * 1) == head[1];
    if p.v.isArray {
      assert Read(mem, pos + 2 * 2) == head[2];
    }
  }

  lemma LongRead(mem: seq<Byte>, pos: nat, ns: seq<int>, i: nat)
    requires Stored(mem, pos, LongWords(ns)) && i < |ns|
    ensures pos + 4 * i + 3 < |mem| && LongAt(mem, pos + 4 * i) == Signed(ns[i])
  {
    hide LongWords, Read, LongAt, Signed;
    var ws := LongWords(ns);
    assert Read(mem, pos + 2 * (2 * i)) == ws[2 * i];
    assert Read(mem, pos + 2 * (2 * i + 1)) == ws[2 * i + 1];
    LongWordsAt(ns, i);
    LongStored(mem, pos + 4 * i, ns[i]);
  }

  method ReadLongs(block: BasicBlock, dataBase: nat, count: nat, ghost ns: seq<int>) returns (data: seq<int>)
    requires count == |ns| && block.base <= dataBase && Stored(block.data, dataBase - block.base, LongWords(ns))
    ensures data == SignedAll(ns)
  {
    hide Read, Stored, LongWords;
    data := [];
    for i := 0 to count
      invariant data == SignedAll(ns)[..i]
    {
      LongRead(block.data, dataBase - block.base, ns, i);
      var val := block.ReadLong(i * 4 + dataBase);
      data := data + [val];
    }
  }

  method ReadText(block: BasicBlock, item: Word, ghost bytes: seq<Byte>, ghost high: nat) returns (s: seq<Byte>)
    requires TextAt(block.data, block.base, item, bytes, high)
    ensures s == ShownText(bytes)
  {
    hide ShownText, Stored, WrittenText;
    TextHeld(block.data, item - block.base, bytes);
    s := [];
    var n := block.data[item - block.base];
    for i := 0 to n
      invariant s == ShownText(bytes)[..i]
    {
      s := s + [block.data[item + 1 + i - block.base]];
    }
  }

  method ReadTexts(block: BasicBlock, dataBase: nat, count: nat, ghost addrs: seq<Word>,
                   ghost texts: seq<seq<Byte>>, ghost high: nat)
    returns (data: seq<seq<Byte>>)
    requires count == |texts| && block.base <= dataBase && Stored(block.data, dataBase - block.base, addrs)
    requires TextsAt(block.data, block.base, addrs, texts, high)
    ensures data == ShownTexts(texts)
  {
    hide TextAt, ShownText;
    data := [];
    for i := 0 to count
      invariant data == ShownTexts(texts)[..i]
    {
      assert Read(block.data, dataBase - block.base + 2 * i) == addrs[i];
      var item := block.ReadWord(i * 2 + dataBase);
      var s := ReadText(block, item, texts[i], high);
      data := data + [s];
    }
  }

  // ----- records and chains

  lemma RecordRead(mem: seq<Byte>, base: nat, p: Placed, link: Word, low: nat, high: nat)
    requires RecordAt(mem, base, p, link, low, high) && low < 0x10000
    ensures p.name != [] && base <= p.addr && base <= p.id && p.addr - base + 3 < |mem|
    ensures Read(mem, p.addr - base + 2) == p.id && Stored(mem, p.id - base, p.name)
    ensures p.v.isArray ==> p.addr - base + 5 < |mem| && Read(mem, p.addr - base + 4) == Count(p.v) - 1
    ensures !p.v.isArray ==> Count(p.v) == 1
    ensures Stored(mem, p.addr - base + DataOffset(p.v), DataWords(p))
  {
    DataStored(mem, p.addr - base, p, link);
  }

  /** One record, read as its type says. */
  method Describe(block: BasicBlock, typeID: nat, hashEntry: nat, ghost p: Placed, ghost link: Word,
                  ghost low: nat, ghost high: nat, addr: Word)
    returns (l: Listed)
    requires RecordAt(block.data, block.base, p, link, low, high) && low < 0x10000 && addr == p.addr
    requires Proper(p) && typeID == TypeOf(p.v) && hashEntry == Slot(p) % ENTRIES
    ensures l == ListedAs(p)
  {
    hide Stored, NameWords, Slot, RecordWords, TextsAt, Read, LongWords, ShownText;
    RecordRead(block.data, block.base, p, link, low, high);
    var dataCount, dataBase := 1, addr + 4;
    if typeID % 2 != 0 {
      var highSubscript := block.ReadWord(addr + 4);
      dataCount, dataBase := highSubscript + 1, addr + 6;
    }
    var id := block.ReadWord(addr + 2);
    var name := DecodeIdentifier(block, id, p.v);
    if typeID < 2 {
      var data := ReadLongs(block, dataBase, dataCount, p.v.values.longs);
      l := Listed(name, addr, hashEntry, Longs(data));
    } else {
      var data := ReadTexts(block, dataBase, dataCount, p.texts, p.v.values.texts, high);
      l := Listed(name, addr, hashEntry, Texts(data));
    }
  }

  predicate OfSlot(ps: seq<Placed>, s: nat) {
    forall i :: 0 <= i < |ps| ==> ps[i].name != [] && Slot(ps[i]) == s
  }

  lemma ChainHead(mem: seq<Byte>, base: nat, link: Word, ps: seq<Placed>, low: nat, high: nat, s: nat)
    requires Chain(mem, base, link, ps, low, high) && OfSlot(ps, s) && AllProper(ps)
    ensures link == 0 ==> ps == []
    ensures link != 0 ==>
              && ps != [] && link == ps[0].addr && base <= link && link - base + 1 < |mem|
              && Proper(ps[0]) && Slot(ps[0]) == s && s / ENTRIES == TypeOf(ps[0].v) && OfSlot(ps[1..], s)
              && AllProper(ps[1..])
              && var next := Read(mem, link - base);
                 next < link && RecordAt(mem, base, ps[0], next, low, high) &&
                   Chain(mem, base, next, ps[1..], low, high)
  {
    if ps != [] {
      assert RecordAt(mem, base, ps[0], Read(mem, link - base), low, high);
      SlotType(ps[0]);
    }
  }

  lemma ChainStart(mem: seq<Byte>, base: nat, chains: seq<seq<Placed>>, s: nat, low: nat, high: nat)
    requires AllChains(mem, base, chains, low, high) && s < SLOTS
    ensures |chains| == SLOTS && PROGRAM <= |mem| &&
            Chain(mem, base, Read(mem, HASHTABLE + 2 * s), chains[s], low, high)
    ensures OfSlot(chains[s], s)
  {
    assert forall k :: 0 <= k < SLOTS ==> ChainAt(mem, base, chains[k], k, low, high);
  }

  lemma ListedOn(all: seq<Placed>, i: nat)
    requires AllProper(all) && i < |all|
    ensures ListedChain(all)[..i + 1] == ListedChain(all)[..i] + [ListedAs(all[i])]
  {
  }

  /** The records of one slot, newest first; the links run down, so the walk ends. */
  method ListSlot(varBlock: VariableBlock, hashTableBase: nat, hashEntry: nat, typeID: nat) returns (out: seq<Listed>)
    requires varBlock.Valid() && |varBlock.chains| == SLOTS && AllOfSlots(varBlock.chains)
    requires hashEntry < ENTRIES && typeID < 4
    requires hashTableBase == varBlock.block.base + HASHTABLE + ENTRIES * typeID * 2
    ensures out == ListedChain(varBlock.chains[ENTRIES * typeID + hashEntry])
  {
    hide BasicBlock.Valid, AllChains, Chain, RecordAt, Slot, Proper, OfSlot, ListedAs, ListedChain, AllOfSlots,
      AllProper, Read;
    var block := varBlock.block;
    InOrder(block);
    ghost var base, s, low, high := block.base, ENTRIES * typeID + hashEntry, block.Low() - block.base,
      block.High() - block.base;
    ChainStart(block.data, base, varBlock.chains, s, low, high);
    ghost var all := varBlock.chains[s];
    ghost var rest := all;
    SlotNamed(varBlock.chains, s);
    var addr := block.ReadWord(hashTableBase + hashEntry * 2);
    out := [];
    while addr != 0
      invariant Chain(block.data, base, addr, rest, low, high) && OfSlot(rest, s) && AllProper(rest)
      invariant |rest| <= |all| && rest == all[|all| - |rest|..] && out == ListedChain(all)[..|all| - |rest|]
      decreases addr
    {
      ChainHead(block.data, base, addr, rest, low, high, s);
      ghost var link := Read(block.data, addr - base);
      var l := Describe(block, typeID, hashEntry, rest[0], link, low, high, addr);
      ListedOn(all, |all| - |rest|);
      out := out + [l];
      rest := rest[1..];
      addr := block.ReadWord(addr);
    }
    ChainHead(block.data, base, addr, rest, low, high, s);
  }

  lemma SlotNamed(chains: seq<seq<Placed>>, s: nat)
    requires AllOfSlots(chains) && s < |chains|
    ensures AllProper(chains[s]) && |ListedChain(chains[s])| == |chains[s]|
  {
  }

  method ListVariableType(varBlock: VariableBlock, hashTableBase: nat, typeID: nat) returns (out: seq<Listed>)
    requires varBlock.Valid() && |varBlock.chains| == SLOTS && AllOfSlots(varBlock.chains)
    requires typeID < 4 && hashTableBase == varBlock.block.base + HASHTABLE + ENTRIES * typeID * 2
    ensures out == ListedSlots(varBlock.chains, ENTRIES * typeID, ENTRIES * typeID + ENTRIES)
  {
    hide BasicBlock.Valid, AllChains, ListedChain, AllOfSlots, AllProper, VariableBlock.Valid;
    out := [];
    for hashEntry := 0 to ENTRIES
      invariant out == ListedSlots(varBlock.chains, ENTRIES * typeID, ENTRIES * typeID + hashEntry)
    {
      var slot := ListSlot(varBlock, hashTableBase, hashEntry, typeID);
      out := out + slot;
    }
  }

  lemma SlotCount(varBlock: VariableBlock)
    requires varBlock.Valid()
    ensures |varBlock.chains| == SLOTS && PROGRAM <= |varBlock.block.data|
  {
    hide BasicBlock.Valid, ChainAt;
  }

  lemma {:induction false} SlotsJoin(chains: seq<seq<Placed>>, from: nat, mid: nat, end: nat)
    requires from <= mid <= end <= |chains| && AllOfSlots(chains)
    ensures ListedSlots(chains, from, end) == ListedSlots(chains, from, mid) + ListedSlots(chains, mid, end)
    decreases end
  {
    hide AllOfSlots, AllProper, ListedChain;
    if mid < end {
      SlotsJoin(chains, from, mid, end - 1);
      SlotNamed(chains, end - 1);
    }
  }

  // ----- single letters and the whole listing

  datatype FastListed = FastListed(letter: nat, value: int)

  /** The letters with a value, in order. */
  ghost function NonZero(varBlock: VariableBlock, n: nat): seq<FastListed>
    requires n <= LETTERS && |varBlock.block.data| >= PROGRAM
    reads varBlock.block`data
  {
    if n == 0 then []
    else NonZero(varBlock, n - 1) + if varBlock.Fast(n - 1) == 0 then [] else [FastListed(n - 1, varBlock.Fast(n - 1))]
  }

  lemma LongIs(mem: seq<Byte>, addr: nat, val: int)
    requires addr + 3 < |mem| && -0x8000_0000 <= val < 0x8000_0000
    requires val % 0x1_0000_0000 == Read(mem, addr) + 0x10000 * (Read(mem, addr + 2) as int)
    ensures LongAt(mem, addr) == val
  {
    SignedExactly(val);
    assert Signed(Read(mem, addr) + 0x10000 * (Read(mem, addr + 2) as int)) == Signed(val);
  }

  method ListFastVariables(varBlock: VariableBlock) returns (out: seq<FastListed>)
    requires varBlock.Valid()
    ensures |varBlock.block.data| >= PROGRAM && out == NonZero(varBlock, LETTERS)
  {
    hide BasicBlock.Valid, AllChains, LongAt, Read;
    InOrder(varBlock.block);
    out := [];
    for i := 0 to LETTERS
      invariant out == NonZero(varBlock, i)
    {
      var data := varBlock.block.ReadLong(varBlock.block.base + FASTVARIABLES + i * 4);
      LongIs(varBlock.block.data, FASTVARIABLES + i * 4, data);
      if data != 0 {
        out := out + [FastListed(i, data)];
      }
    }
  }

  /** The listing: the letters, then every variable in its slot, each with its own name and what is shown of its
      values. It asks that no keyword has taken the name of a variable: the words of one do not tell its type. */
  method ListVariables(varBlock: VariableBlock) returns (fast: seq<FastListed>, out: seq<Listed>)
    requires varBlock.Valid() && |varBlock.chains| == SLOTS && AllOfSlots(varBlock.chains)
    ensures |varBlock.block.data| >= PROGRAM && fast == NonZero(varBlock, LETTERS)
    ensures out == ListedSlots(varBlock.chains, 0, SLOTS)
  {
    hide VariableBlock.Valid, ListedChain, AllOfSlots, AllProper, NonZero;
    fast := ListFastVariables(varBlock);
    out := [];
    for typeID := 0 to 4
      invariant out == ListedSlots(varBlock.chains, 0, ENTRIES * typeID)
    {
      var hashTable := varBlock.block.base + HASHTABLE + ENTRIES * typeID * 2;
      var more := ListVariableType(varBlock, hashTable, typeID);
      SlotsJoin(varBlock.chains, 0, ENTRIES * typeID, ENTRIES * typeID + ENTRIES);
      out := out + more;
    }
  }
}
