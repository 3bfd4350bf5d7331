/** Importing variables into the memory block and listing them again
    (scripts/old_testing/variables.py, scripts/old_testing/dispvariables.py). */
module Variables {
  import opened Primitives
  import opened Tokens
  import opened Lexer
  import opened RoundTrip
  import opened Tokeniser
  import opened Listing
  import opened Block
  import opened Records

  // ----- names and strings in high memory

  /** The bytes a name and its strings take. */
  function TextBytes(texts: seq<seq<Byte>>): nat {
    if texts == [] then 0 else TextBytes(texts[..|texts| - 1]) + |texts[|texts| - 1]| / 2 * 2 + 2
  }

  function HighBytes(name: seq<Word>, v: Var): nat {
    2 * |name| + if v.values.Texts? then TextBytes(v.values.texts) else 0
  }

  lemma {:induction false} TextBytesGrow(texts: seq<seq<Byte>>, i: nat)
    requires i <= |texts|
    ensures TextBytes(texts[..i]) <= TextBytes(texts)
    decreases |texts|
  {
    if i < |texts| {
      TextBytesGrow(texts[..|texts| - 1], i);
      assert texts[..|texts| - 1][..i] == texts[..i];
    } else {
      assert texts[..i] == texts;
    }
  }

  /** A memory that holds the block's program. */
  ghost predicate HoldsProgram(block: BasicBlock, mem: seq<Byte>)
    reads block`lines, block`lastProgramLineNumber
  {
    && block.tokeniser.Valid() && PROGRAM + 6 <= |mem| && block.base + |mem| < 0x10000
    && AllFit(block.lines) && Held(mem, PROGRAM, block.lines) && block.End() + 6 <= |mem|
    && Read(mem, block.End() + 2) == MARKER && Read(mem, block.End() + 4) == MARKER
    && Rising(block.lines, block.lastProgramLineNumber)
  }

  /** The bounds that a block in order keeps. */
  lemma InOrder(block: BasicBlock)
    requires block.Valid()
    ensures HoldsProgram(block, block.data) && TableFits(block.tokeniser.tokens)
    ensures PROGRAM <= block.End() <= |block.data| && HIGHPTR + 1 < PROGRAM &&
            block.base + block.End() + 6 <= block.Low()
    ensures block.Low() <= block.High() <= block.base + |block.data| < 0x10000
  {
  }

  /** A block is in order while its program's bytes and bounds are. */
  lemma StaysInOrder(was: seq<Byte>, block: BasicBlock)
    requires HoldsProgram(block, was) && Agree(was, block.data, block.End() + 6, |was|)
    requires block.base + block.End() + 6 <= block.Low() <= block.High() <= block.base + |was|
    ensures block.Valid()
  {
    hide Rising, Fits, AllFit, Area, LongestFirst, TableReadable;
    StillHeld(was, block.data, block.End() + 2, block.lines);
  }

  /** Changes beyond the end of the program leave the block in order. */
  lemma StillValid(was: seq<Byte>, block: BasicBlock, from: int, to: int)
    requires HoldsProgram(block, was) && Kept(was, block.data, from, to) && block.End() + 6 <= from
    requires block.base + block.End() + 6 <= block.Low() <= block.High() <= block.base + |was|
    ensures block.Valid()
  {
    var end := block.End();
    KeptBelow(was, block.data, from, to, end + 6);
    StaysInOrder(was, block);
  }

  lemma KeptBelow(mem: seq<Byte>, now: seq<Byte>, from: int, to: int, low: nat)
    requires Kept(mem, now, from, to) && low <= from
    ensures Agree(mem, now, low, |mem|)
  {
  }

  /** Words in fresh high memory, as far as the bytes go. */
  method WriteHigh(block: BasicBlock, ws: seq<Word>) returns (addr: int, ok: bool)
    requires ws != [] && PROGRAM <= |block.data| && block.base + PROGRAM <= block.Low() &&
             block.High() <= block.base + |block.data|
    modifies block`data
    ensures ok == (old(block.Low()) + SPARE < old(block.High()) - 2 * |ws|)
    ensures ok ==>
              && Kept(old(block.data), block.data, addr - block.base, old(block.High()) - block.base) &&
                |block.data| == old(|block.data|)
              && addr == block.High() == old(block.High()) - 2 * |ws| && block.Low() == old(block.Low())
              && Stored(block.data, addr - block.base, ws)
  {
    hide Stored, Kept, Elsewhere;
    ghost var was, high := block.data, block.High();
    addr, ok := block.AllocateHighMemory(2 * |ws|);
    if !ok || addr < block.base {
      return addr, false;
    }
    ghost var next, from, to := block.data, addr - block.base, high - block.base;
    block.WriteWords(addr, ws);
    ElsewhereKept(next, block.data, from, to);
    KeptWiden(was, next, 0, 0, from, from);
    KeptStill(was, next, block.data, from, from, to);
    KeptLength(was, block.data, from, to);
  }

  /** Words in fresh high memory; the program below is untouched. */
  method StoreHigh(block: BasicBlock, ws: seq<Word>) returns (addr: int, ok: bool)
    requires block.Valid() && ws != []
    modifies block`data
    ensures ok == (old(block.Low()) + SPARE < old(block.High()) - 2 * |ws|)
    ensures ok ==>
              && block.Valid() && addr == block.High() == old(block.High()) - 2 * |ws| &&
                block.Low() == old(block.Low())
              && Stored(block.data, addr - block.base, ws)
              && Kept(old(block.data), block.data, addr - block.base, old(block.High()) - block.base)
  {
    hide BasicBlock.Valid, Stored, Kept;
    InOrder(block);
    addr, ok := WriteHigh(block, ws);
    if ok {
      StillValid(old(block.data), block, addr - block.base, old(block.High()) - block.base);
    }
  }

  /** The first strings are in place below the top, and the rest of memory is as it was. */
  ghost predicate TextsStored(block: BasicBlock, was: seq<Byte>, low: int, top: int, addrs: seq<Word>,
                              texts: seq<seq<Byte>>)
    reads block
  {
    && block.Valid() && block.Low() == low && block.High() == top - TextBytes(texts)
    && TextsAt(block.data, block.base, addrs, texts, block.High() - block.base)
    && Kept(was, block.data, block.High() - block.base, top - block.base)
  }

  method StoreNextText(block: BasicBlock, ghost was: seq<Byte>, ghost low: int, ghost top: int,
                       addrs: seq<Word>, ghost texts: seq<seq<Byte>>, bytes: seq<Byte>)
    returns (more: seq<Word>, ok: bool)
    requires TextsStored(block, was, low, top, addrs, texts)
    modifies block`data
    ensures ok == (low + SPARE < top - TextBytes(texts + [bytes]))
    ensures ok ==> |more| == |addrs| + 1 && TextsStored(block, was, low, top, more, texts + [bytes])
  {
    hide BasicBlock.Valid, Stored, WrittenText, Kept, TextsAt, HoldsProgram, TextBytes;
    InOrder(block);
    ghost var before, base, high := block.data, block.base, block.High();
    NextTextBytes(texts, bytes);
    var addr;
    addr, ok := StoreHigh(block, WrittenText(bytes));
    more := addrs;
    if ok {
      InOrder(block);
      KeptJoin(was, before, block.data, addr - base, high - base, top - base);
      TextsStay(before, block.data, base, addrs, texts, addr - base, high - base);
      TextsAppend(block.data, base, addrs, texts, addr, bytes, addr - base);
      more := addrs + [addr];
    }
  }

  /** Strings of any length one after another in fresh high memory, each with its length before it. */
  method StoreTexts(block: BasicBlock, texts: seq<seq<Byte>>) returns (addrs: seq<Word>, ok: bool)
    requires block.Valid() && texts != []
    modifies block`data
    ensures ok == (old(block.Low()) + SPARE < old(block.High()) - TextBytes(texts))
    ensures ok ==>
            |addrs| == |texts| && TextsStored(block, old(block.data), old(block.Low()), old(block.High()), addrs, texts)
  {
    hide *;
    InOrder(block);
    addrs, ok := [], true;
    ghost var was, low, top := block.data, block.Low(), block.High();
    NoTexts(block, addrs, texts[..0]);
    for i := 0 to |texts|
      invariant ok && |addrs| == i && TextsStored(block, was, low, top, addrs, texts[..i])
      invariant i > 0 ==> low + SPARE < top - TextBytes(texts[..i])
    {
      TextBytesGrow(texts, i + 1);
      assert texts[..i + 1] == texts[..i] + [texts[i]];
      addrs, ok := StoreNextText(block, was, low, top, addrs, texts[..i], texts[i]);
      if !ok {
        return;
      }
    }
    assert texts[..|texts|] == texts;
  }

  lemma NextTextBytes(texts: seq<seq<Byte>>, bytes: seq<Byte>)
    ensures TextBytes(texts + [bytes]) == TextBytes(texts) + 2 * |WrittenText(bytes)|
  {
    hide WrittenText;
    assert (texts + [bytes])[..|texts|] == texts;
  }

  lemma KeptJoin(mem: seq<Byte>, next: seq<Byte>, now: seq<Byte>, from: int, mid: int, to: int)
    requires Kept(mem, next, mid, to) && Kept(next, now, from, mid) && from <= mid <= to
    ensures Kept(mem, now, from, to)
  {
  }

  /** What lay at the top stays when something is put below it. */
  lemma TextsStay(mem: seq<Byte>, now: seq<Byte>, base: nat, addrs: seq<Word>, texts: seq<seq<Byte>>,
                  from: nat, high: nat)
    requires Kept(mem, now, from, high) && from <= high && FIRST_FREE <= high && TextsAt(mem, base, addrs, texts, high)
    ensures TextsAt(now, base, addrs, texts, from)
  {
    TextsKept(mem, now, base, addrs, texts, PROGRAM, high, from);
  }

  lemma NoTexts(block: BasicBlock, addrs: seq<Word>, texts: seq<seq<Byte>>)
    requires block.Valid() && addrs == [] && texts == []
    ensures TextBytes(texts) == 0 && TextsStored(block, block.data, block.Low(), block.High(), addrs, texts)
  {
  }

  lemma TextsAppend(mem: seq<Byte>, base: nat, addrs: seq<Word>, texts: seq<seq<Byte>>, addr: Word,
                    bytes: seq<Byte>, high: nat)
    requires TextsAt(mem, base, addrs, texts, high) && base + high <= addr &&
             Stored(mem, addr - base, WrittenText(bytes))
    ensures TextsAt(mem, base, addrs + [addr], texts + [bytes], high)
  {
    hide Stored, WrittenText;
    assert TextAt(mem, base, addr, bytes, high);
    hide TextAt;
  }

  // ----- a new record

  /** The text of a name reads as one item: the keyword that has it, or the name. */
  lemma NameTokenises(table: seq<Entry>, v: Var, s: string, item: Item)
    requires TableReadable(table) && Nameable(v) && s == NameText(v) && item == IdItem(table, v)
    ensures Plain(s) && LexAll(table, s) == Good([item]) && AllLegal(table, [item])
    ensures Words(table, [item]) == IdWords(table, v)
  {
    var name := NameItem(v);
    assert s == Core(table, name);
    NamePlain(table, name);
    hide Core, LexAll, FindExact, Plain, ItemWords;
    NameOrKeywordReads(table, name, s, FindExact(table, s, |table|));
    assert [item][1..] == [] && IdWords(table, v) + [] == IdWords(table, v);
  }

  lemma NamePlain(table: seq<Entry>, item: Item)
    requires Legal(table, item) && item.Name?
    ensures Plain(Core(table, item))
  {
  }

  /** A name goes in as itself exactly when no keyword has it; else it goes in as the keyword, and that
      word belongs to the slots of strings whatever the variable holds. */
  lemma NamesExactly(table: seq<Entry>, v: Var)
    requires TableReadable(table) && Named(v)
    ensures IdWords(table, v) == NameWords(v.chars, v.values.Texts?, v.isArray) <==> NoKeyword(table, v)
    ensures !NoKeyword(table, v) ==> |IdWords(table, v)| == 1 && SlotOf(IdWords(table, v)[0]) / ENTRIES >= 2
  {
    hide TableReadable;
    var ws := NameWords(v.chars, v.values.Texts?, v.isArray);
    NameAbove(v.chars, v.values.Texts?, v.isArray, ws[0]);
  }

  /** The words of a name lie above those of keywords. */
  lemma NameAbove(chars: seq<nat>, dollar: bool, paren: bool, w: Word)
    requires chars != [] && Letters(chars) && w == NameWords(chars, dollar, paren)[0]
    ensures w >= 0xc000
  {
  }

  /** The generator of names tries them without the mark of a string. What it lets through is usable for numbers
      always, and for strings exactly when no keyword has the name with the mark. */
  lemma GeneratedNames(table: seq<Entry>, v: Var, plain: string)
    requires Named(v) && plain == CodeText(v.chars)
    requires FindExact(table, plain, |table|).Missing?
    requires v.isArray ==> FindExact(table, plain + "(", |table|).Missing?
    ensures v.values.Longs? ==> NoKeyword(table, v)
    ensures v.values.Texts? ==>
              (NoKeyword(table, v) <==> FindExact(table, plain + (if v.isArray then "$(" else "$"), |table|).Missing?)
  {
    assert NameText(v) == plain + Suffix(v.values.Texts?, v.isArray);
    assert plain + "" == plain;
  }

  /** The words of a name by the token table of a block. */
  function NameIn(block: BasicBlock, v: Var): (ws: seq<Word>)
    requires TableFits(block.tokeniser.tokens) && Named(v)
    ensures ws != []
  {
    IdWords(block.tokeniser.tokens, v)
  }

  method StoreName(block: BasicBlock, v: Var) returns (addr: int, ok: bool)
    requires block.Valid() && Nameable(v)
    modifies block`data, block.tokeniser
    ensures ok == (old(block.Low()) + SPARE < old(block.High()) - 2 * |NameIn(block, v)|)
    ensures ok ==>
              && block.Valid() && addr == block.High() == old(block.High()) - 2 * |NameIn(block, v)| &&
                block.Low() == old(block.Low())
              && Stored(block.data, addr - block.base, NameIn(block, v))
              && Kept(old(block.data), block.data, addr - block.base, old(block.High()) - block.base)
  {
    hide BasicBlock.Valid, Stored, Kept, LexAll, Words, AllLegal, Plain, IdItem, IdWords, NameText, LongestFirst,
      TableReadable, TableFits;
    InOrder(block);
    NameTokenises(block.tokeniser.tokens, v, NameText(v), IdItem(block.tokeniser.tokens, v));
    var tokenised := block.tokeniser.Tokenise(NameText(v));
    addr, ok := StoreHigh(block, block.tokeniser.buffer);
  }

  lemma KeptStored(mem: seq<Byte>, now: seq<Byte>, from: nat, to: nat, addr: nat, ws: seq<Word>)
    requires Kept(mem, now, from, to) && Stored(mem, addr, ws) && to <= addr && FIRST_FREE <= addr
    ensures Stored(now, addr, ws)
  {
    forall i | 0 <= i < |ws|
      ensures Read(now, addr + 2 * i) == ws[i]
    {
      assert Read(mem, addr + 2 * i) == ws[i];
    }
  }

  /** Low memory for a record; a size that wraps the pointer is refused when the record is written. */
  method AllocateRecord(block: BasicBlock, size: nat) returns (addr: int, ok: bool)
    requires block.Valid()
    modifies block`data
    ensures ok == (old(block.Low()) + size + SPARE < old(block.High()))
    ensures ok ==>
            block.Valid() && addr == old(block.Low()) && block.Low() == addr + size &&
            block.High() == old(block.High()) && Kept(old(block.data), block.data, 0, 0)
  {
    hide BasicBlock.Valid, Kept, HoldsProgram;
    InOrder(block);
    ghost var was, end := block.data, block.End();
    addr, ok := block.AllocateLowMemory(size);
    if !ok || addr - block.base + size > |block.data| {
      return addr, false;
    }
    KeptWiden(was, block.data, 0, 0, end + 6, end + 6);
    StillValid(was, block, end + 6, end + 6);
  }

  /** The name of a variable and its strings lie in high memory. */
  ghost predicate PartsStored(block: BasicBlock, was: seq<Byte>, low: int, top: int, v: Var, name: seq<Word>,
                              id: Word, texts: seq<Word>)
    reads block
  {
    && block.Valid() && block.Low() == low && block.High() == top - HighBytes(name, v)
    && block.High() <= id == top - 2 * |name| && Stored(block.data, id - block.base, name)
    && (v.values.Texts? ==>
      |texts| == |v.values.texts| && TextsAt(block.data, block.base, texts, v.values.texts, block.High() - block.base))
    && Kept(was, block.data, block.High() - block.base, top - block.base)
  }

  lemma PartsGive(block: BasicBlock, was: seq<Byte>, low: int, top: int, v: Var, name: seq<Word>,
                              id: Word, texts: seq<Word>)
    requires PartsStored(block, was, low, top, v, name, id, texts)
    ensures block.Valid() && PROGRAM <= |block.data|
    ensures block.Low() == low && block.High() == top - HighBytes(name, v)
    ensures block.base <= block.High() <= id == top - 2 * |name| &&
            Stored(block.data, id - block.base, name)
    ensures v.values.Texts? ==>
            |texts| == |v.values.texts| &&
            TextsAt(block.data, block.base, texts, v.values.texts, block.High() - block.base)
    ensures Kept(was, block.data, block.High() - block.base, top - block.base)
  {
  }

  /** The name alone. */
  lemma NamePart(block: BasicBlock, was: seq<Byte>, low: int, top: int, v: Var, name: seq<Word>, id: Word)
    requires block.Valid() && block.Low() == low && block.High() == id == top - 2 * |name| && v.values.Longs?
    requires Stored(block.data, id - block.base, name) && Kept(was, block.data, id - block.base, top - block.base)
    ensures PartsStored(block, was, low, top, v, name, id, [])
  {
  }

  /** The name and, below it, the strings. */
  lemma TextParts(block: BasicBlock, was: seq<Byte>, named: seq<Byte>, low: int, top: int, v: Var, name: seq<Word>,
                  id: Word, texts: seq<Word>)
    requires v.values.Texts? && id == top - 2 * |name| && |texts| == |v.values.texts|
    requires TextsStored(block, named, low, id, texts, v.values.texts) && block.base + FIRST_FREE <= id
    requires Stored(named, id - block.base, name) && Kept(was, named, id - block.base, top - block.base)
    ensures PartsStored(block, was, low, top, v, name, id, texts)
  {
    var base, high := block.base, block.High() - block.base;
    hide BasicBlock.Valid, Kept, Stored, TextsAt, TextBytes;
    InOrder(block);
    KeptJoin(was, named, block.data, high, id - base, top - base);
    KeptStored(named, block.data, high, id - base, id - base, name);
  }

  method StoreParts(block: BasicBlock, v: Var) returns (id: Word, texts: seq<Word>, ok: bool)
    requires block.Valid() && Nameable(v)
    modifies block`data, block.tokeniser
    ensures ok == (old(block.Low()) + SPARE < old(block.High()) - HighBytes(NameIn(block, v), v))
    ensures ok ==>
            PartsStored(block, old(block.data), old(block.Low()), old(block.High()), v, NameIn(block, v), id, texts)
  {
    hide BasicBlock.Valid, Kept, HoldsProgram, Stored, TextsAt, TextBytes, NameIn, Read, TableFits, TextsStored,
      PartsStored;
    InOrder(block);
    id, texts := 0, [];
    ghost var was, low, top, name := block.data, block.Low(), block.High(), NameIn(block, v);
    var addr;
    addr, ok := StoreName(block, v);
    if !ok {
      return;
    }
    InOrder(block);
    id := addr;
    if v.values.Longs? {
      NamePart(block, was, low, top, v, name, id);
    } else {
      ghost var named := block.data;
      texts, ok := StoreTexts(block, v.values.texts);
      if ok {
        TextParts(block, was, named, low, top, v, name, id, texts);
      }
    }
  }

  /** Space, name, strings and then the words of the record, with no link yet. */
  method PlaceRecord(block: BasicBlock, v: Var) returns (p: Placed, ok: bool)
    requires block.Valid() && Nameable(v)
    modifies block`data, block.tokeniser
    ensures ok == (old(block.Low()) + RecordSize(v) + SPARE < old(block.High()) - HighBytes(NameIn(block, v), v))
    ensures ok ==>
              && block.Valid() && p.v == v && p.addr == old(block.Low())
              && p.name == NameIn(block, v) && p.id == old(block.High()) - 2 * |p.name|
              && block.Low() == p.addr + RecordSize(v) && block.High() == old(block.High()) - HighBytes(p.name, v)
              && RecordAt(block.data, block.base, p, 0, block.Low() - block.base, block.High() - block.base)
              && Kept(old(block.data), block.data, p.addr - block.base, old(block.High()) - block.base)
  {
    hide BasicBlock.Valid, Kept, HoldsProgram, Stored, TextsAt, IdWords, RecordWords, HighBytes, RecordAt, RecordSize,
      Elsewhere, PartsStored, TableFits;
    InOrder(block);
    p := Placed(v, [], 0, 0, []);
    ghost var base, mem0, top := block.base, block.data, block.High() - block.base;
    var address;
    address, ok := AllocateRecord(block, RecordSize(v));
    if !ok {
      return;
    }
    ghost var mem1 := block.data;
    var id, texts;
    id, texts, ok := StoreParts(block, v);
    if !ok {
      return;
    }
    PartsGive(block, mem1, address + RecordSize(v), top + base, v, NameIn(block, v), id, texts);
    InOrder(block);
    p := Placed(v, NameIn(block, v), address, id, texts);
    WriteRecord(block, p, mem1, top + base);
    KeptInto(mem0, mem1, block.data, address - base, top);
  }

  /** The words of the record go below the name and strings already stored. */
  method WriteRecord(block: BasicBlock, p: Placed, ghost was: seq<Byte>, ghost top: int)
    requires block.Valid() && PartsStored(block, was, block.Low(), top, p.v, p.name, p.id, p.texts) && Counted(p.v) &&
             p.name != []
    requires block.base + PROGRAM <= p.addr == block.Low() - RecordSize(p.v) && block.base + block.End() + 6 <= p.addr
    modifies block`data
    ensures block.Valid() && block.Low() == old(block.Low()) && block.High() == old(block.High())
    ensures RecordAt(block.data, block.base, p, 0, block.Low() - block.base, block.High() - block.base)
    ensures Kept(was, block.data, p.addr - block.base, top - block.base)
  {
    hide BasicBlock.Valid, Kept, HoldsProgram, Stored, TextsAt, RecordWords, HighBytes, RecordAt, RecordSize, Elsewhere,
      PartsStored, Counted;
    InOrder(block);
    PartsGive(block, was, block.Low(), top, p.v, p.name, p.id, p.texts);
    RecordLength(p, 0);
    ghost var base, mem, high := block.base, block.data, block.High() - block.base;
    ghost var from, to := p.addr - base, p.addr - base + RecordSize(p.v);
    block.WriteWords(p.addr, RecordWords(p, 0));
    ElsewhereKept(mem, block.data, from, to);
    StillValid(mem, block, from, to);
    RecordStored(mem, block.data, base, p, to, high);
    KeptThrough(was, mem, block.data, from, to, high, top - base);
  }

  lemma RecordStored(mem: seq<Byte>, now: seq<Byte>, base: nat, p: Placed, low: nat, high: nat)
    requires p.name != [] && Counted(p.v) && base + PROGRAM <= p.addr && p.addr - base + RecordSize(p.v) == low <= high
    requires Stored(now, p.addr - base, RecordWords(p, 0))
    requires base + high <= p.id && Stored(mem, p.id - base, p.name)
    requires p.v.values.Texts? ==> TextsAt(mem, base, p.texts, p.v.values.texts, high)
    requires Kept(mem, now, p.addr - base, low)
    ensures RecordAt(now, base, p, 0, low, high)
  {
    hide Stored, Kept, TextsAt, RecordWords, RecordSize, Counted;
    KeptStored(mem, now, p.addr - base, low, p.id - base, p.name);
    if p.v.values.Texts? {
      KeptAgrees(mem, now, p.addr - base, low, high);
      TextsKept(mem, now, base, p.texts, p.v.values.texts, p.addr - base, high, high);
    }
  }

  lemma KeptAgrees(mem: seq<Byte>, now: seq<Byte>, from: nat, to: nat, high: nat)
    requires Kept(mem, now, from, to) && to <= high && FIRST_FREE <= high
    ensures Agree(mem, now, from, high)
  {
  }

  lemma KeptThrough(was: seq<Byte>, mem: seq<Byte>, now: seq<Byte>, from: int, to: int, high: int, top: int)
    requires Kept(was, mem, high, top) && Kept(mem, now, from, to) && from <= to <= high <= top
    ensures Kept(was, now, from, top)
  {
  }

  lemma KeptInto(mem: seq<Byte>, next: seq<Byte>, now: seq<Byte>, from: int, to: int)
    requires Kept(mem, next, 0, 0) && Kept(next, now, from, to)
    ensures Kept(mem, now, from, to)
  {
  }
}
