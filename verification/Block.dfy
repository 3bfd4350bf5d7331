/** The BASIC memory block: one byte array with a linked program growing up from its start, and two
    allocators either side of the free space (scripts/basicblock.py). */
module Block {
  import opened Primitives
  import opened Chars
  import opened Tokens
  import opened Lexer
  import opened Listing
  import opened Tokeniser

  const LOWPTR := 0x08
  const HIGHPTR := 0x0a
  const FIRST_FREE := 12
  const SPARE := 1024
  const MAX_NUMBER := 32767
  const MARKER := 0xeeee

  // ----- memory

  /** Only the bytes from one place up to another may differ. */
  ghost predicate Elsewhere(mem: seq<Byte>, now: seq<Byte>, from: int, to: int) {
    |mem| == |now| && forall i :: 0 <= i < |mem| && !(from <= i < to) ==> mem[i] == now[i]
  }

  /** Only the two pointers and the bytes from one place up to another may differ. */
  ghost predicate Kept(mem: seq<Byte>, now: seq<Byte>, from: int, to: int) {
    |mem| == |now| && forall i :: 0 <= i < |mem| && !(LOWPTR <= i < FIRST_FREE) && !(from <= i < to) ==>
      mem[i] == now[i]
  }

  lemma KeptStill(mem: seq<Byte>, next: seq<Byte>, now: seq<Byte>, from: int, mid: int, to: int)
    requires Kept(mem, next, from, mid) && Kept(next, now, from, to) && mid <= to
    ensures Kept(mem, now, from, to)
  {
  }

  lemma KeptItself(mem: seq<Byte>, from: int, to: int)
    ensures Kept(mem, mem, from, to)
  {
  }

  lemma KeptLength(mem: seq<Byte>, now: seq<Byte>, from: int, to: int)
    requires Kept(mem, now, from, to)
    ensures |mem| == |now|
  {
  }

  /** Writing above the pointers. */
  lemma ElsewhereKept(mem: seq<Byte>, now: seq<Byte>, from: int, to: int)
    requires Elsewhere(mem, now, from, to) && FIRST_FREE <= from && FIRST_FREE <= |mem|
    ensures Kept(mem, now, from, to) && Read(now, LOWPTR) == Read(mem, LOWPTR) &&
            Read(now, HIGHPTR) == Read(mem, HIGHPTR)
  {
  }

  lemma KeptWiden(mem: seq<Byte>, now: seq<Byte>, from: int, to: int, from': int, to': int)
    requires Kept(mem, now, from, to) && (to <= from || (from' <= from && to <= to'))
    ensures Kept(mem, now, from', to')
  {
  }

  function Put(mem: seq<Byte>, addr: nat, w: Word): (now: seq<Byte>)
    requires addr + 1 < |mem|
    ensures |now| == |mem| && Elsewhere(mem, now, addr, addr + 2) && Read(now, addr) == w
  {
    mem[addr := w % 0x100][addr + 1 := w / 0x100]
  }

  /** What lies outside the changed bytes is still stored. */
  lemma StillStored(mem: seq<Byte>, now: seq<Byte>, from: int, to: int, addr: nat, ws: seq<Word>)
    requires Elsewhere(mem, now, from, to) && Stored(mem, addr, ws) && (addr + 2 * |ws| <= from || to <= addr)
    ensures Stored(now, addr, ws)
  {
    forall i | 0 <= i < |ws|
      ensures Read(now, addr + 2 * i) == ws[i]
    {
      assert Read(mem, addr + 2 * i) == ws[i];
    }
  }

  lemma StoredOne(mem: seq<Byte>, addr: nat, w: Word)
    ensures Stored(mem, addr, [w]) <==> addr + 1 < |mem| && Read(mem, addr) == w
  {
    if Stored(mem, addr, [w]) {
      assert Read(mem, addr + 2 * 0) == [w][0];
    }
  }

  // ----- the program area

  datatype CodeLine = CodeLine(number: nat, words: seq<Word>)

  function LineSize(line: CodeLine): nat {
    2 * |line.words| + 6
  }

  predicate Fits(line: CodeLine) {
    1 <= line.number <= MAX_NUMBER && LineSize(line) < 0x10000
  }

  predicate AllFit(lines: seq<CodeLine>) {
    forall i :: 0 <= i < |lines| ==> Fits(lines[i])
  }

  /** Numbers go up, and not beyond the last. */
  predicate Rising(lines: seq<CodeLine>, last: nat) {
    && (forall i, j :: 0 <= i < j < |lines| ==> lines[i].number < lines[j].number)
    && forall i :: 0 <= i < |lines| ==> lines[i].number <= last
  }

  lemma RisingMore(lines: seq<CodeLine>, last: nat, line: CodeLine)
    requires Rising(lines, last) && last < line.number
    ensures Rising(lines, line.number) && Rising(lines + [line], line.number)
  {
  }

  /** The size in bytes, which is the link, the number, the words and an end mark. */
  function LineWords(line: CodeLine): (ws: seq<Word>)
    requires Fits(line)
    ensures 2 * |ws| == LineSize(line)
  {
    [LineSize(line), line.number] + line.words + [0]
  }

  function Area(lines: seq<CodeLine>): seq<Word>
    requires AllFit(lines)
  {
    if lines == [] then [] else LineWords(lines[0]) + Area(lines[1..])
  }

  lemma FitTail(lines: seq<CodeLine>)
    requires lines != [] && AllFit(lines)
    ensures Fits(lines[0]) && AllFit(lines[1..]) && Area(lines) == LineWords(lines[0]) + Area(lines[1..])
  {
  }

  lemma {:induction false} AreaAppend(lines: seq<CodeLine>, line: CodeLine)
    requires AllFit(lines) && Fits(line)
    ensures AllFit(lines + [line]) && Area(lines + [line]) == Area(lines) + LineWords(line)
    decreases |lines|
  {
    hide LineWords, Fits;
    if lines == [] {
      assert lines + [line] == [line] && [line][1..] == [];
    } else {
      FitTail(lines);
      AreaAppend(lines[1..], line);
      FitTail(lines + [line]);
      hide Area, AllFit;
      assert (lines + [line])[1..] == lines[1..] + [line] && (lines + [line])[0] == lines[0];
    }
  }

  /** These lines and the zero link after them. */
  ghost predicate Held(mem: seq<Byte>, addr: nat, lines: seq<CodeLine>) {
    AllFit(lines) && StoredLine(mem, addr, Area(lines))
  }

  lemma HeldEmpty(mem: seq<Byte>, addr: nat)
    ensures Held(mem, addr, []) <==> addr + 1 < |mem| && Read(mem, addr) == 0
  {
    assert Area([]) == [];
  }

  /** The link of a line leads to the next. */
  lemma HeldStep(mem: seq<Byte>, addr: nat, lines: seq<CodeLine>)
    requires lines != [] && Held(mem, addr, lines)
    ensures Fits(lines[0]) && addr + LineSize(lines[0]) <= |mem| && Read(mem, addr) == LineSize(lines[0]) &&
            Read(mem, addr + 2) == lines[0].number
    ensures AllFit(lines[1..]) && |Area(lines)| == |LineWords(lines[0])| + |Area(lines[1..])|
    ensures StoredLine(mem, addr + 4, lines[0].words)
    ensures Held(mem, addr + LineSize(lines[0]), lines[1..])
  {
    FitTail(lines);
    var line := lines[0];
    StoredLineSplit(mem, addr, LineWords(line), Area(lines[1..]));
    var head, tail := [LineSize(line), line.number], line.words + [0];
    assert LineWords(line) == head + tail;
    StoredSplit(mem, addr, head, tail);
    StoredSplit(mem, addr + 4, line.words, [0]);
    StoredOne(mem, addr + 4 + 2 * |line.words|, 0);
    assert Read(mem, addr + 2 * 0) == head[0] && Read(mem, addr + 2 * 1) == head[1];
  }

  class BasicBlock {
    const base: nat
    const tokeniser: Tokeniser
    var data: seq<Byte>
    var lastProgramLineNumber: nat
    var memoryVariableCreated: bool
    ghost var lines: seq<CodeLine>

    ghost function End(): nat
      reads this`lines
      requires AllFit(lines)
    {
      PROGRAM + 2 * |Area(lines)|
    }

    function Low(): int
      reads this`data
      requires HIGHPTR + 1 < |data|
    {
      Read(data, LOWPTR)
    }

    function High(): int
      reads this`data
      requires HIGHPTR + 1 < |data|
    {
      Read(data, HIGHPTR)
    }

    /** The program and its end marker. */
    ghost predicate ProgramHeld()
      reads this`data, this`lines
    {
      && PROGRAM + 6 <= |data| && base + |data| < 0x10000
      && AllFit(lines) && Held(data, PROGRAM, lines) && End() + 6 <= |data|
    }

    ghost predicate Marked()
      reads this`data, this`lines
      requires AllFit(lines) && End() + 6 <= |data|
    {
      Read(data, End() + 2) == MARKER && Read(data, End() + 4) == MARKER
    }

    ghost predicate Valid()
      reads this
    {
      && tokeniser.Valid() && ProgramHeld() && Marked()
      && Rising(lines, lastProgramLineNumber)
      && base + End() + 6 <= Low() <= High() <= base + |data|
    }

    constructor (baseAddress: nat, size: nat, tokeniser: Tokeniser)
      requires PROGRAM + 6 <= size && baseAddress + size < 0x10000 && tokeniser.Valid()
      ensures Valid() && base == baseAddress && |data| == size && this.tokeniser == tokeniser
      ensures lines == [] && lastProgramLineNumber == 0 && !memoryVariableCreated
      ensures Low() == base + PROGRAM + 6 && High() == base + size && data[..4] == [66, 65, 83, 67]
      ensures forall i :: FIRST_FREE <= i < PROGRAM ==> data[i] == 0
      ensures Read(data, 0x08) == base + 0x206 && Read(data, 0x0a) == base + size
      ensures Read(data, 0x200) == 0 && Read(data, 0x202) == Read(data, 0x204) == 0xeeee
    {
      base, this.tokeniser, lines, lastProgramLineNumber, memoryVariableCreated := baseAddress, tokeniser, [], 0, false;
      data := seq(size, i => if i == 0 then 66 else if i == 1 then 65 else if i == 2 then 83
        else if i == 3 then 67 else 0);
      new;
      ClearMemory();
    }

    /** Erases program and variables; the last line number stays. */
    method ClearMemory()
      requires tokeniser.Valid() && PROGRAM + 6 <= |data| && base + |data| < 0x10000
      modifies this`data, this`lines
      ensures Valid() && lines == [] && |data| == old(|data|)
      ensures Low() == base + PROGRAM + 6 && High() == base + |data|
      ensures Kept(old(data), data, PROGRAM, PROGRAM + 6)
    {
      hide Held, LongestFirst, TableReadable;
      WriteWord(base + HIGHPTR, base + |data|);
      WriteWord(base + PROGRAM, 0);
      lines := [];
      HeldEmpty(data, PROGRAM);
      ghost var next := data;
      var _ := ResetLowMemory();
      KeptWiden(next, data, PROGRAM + 2, PROGRAM + 6, PROGRAM, PROGRAM + 6);
    }

    method ReadWord(addr: int) returns (w: Word)
      requires base <= addr && addr - base + 1 < |data|
      ensures w == Read(data, addr - base)
    {
      w := data[addr - base] + (data[addr - base + 1] as int) * 256;
    }

    method WriteWord(addr: int, value: int)
      requires base <= addr && addr - base + 1 < |data|
      modifies this`data
      ensures data == Put(old(data), addr - base, value % 0x10000)
    {
      var word := value % 0x10000;
      data := data[addr - base := word % 0x100];
      data := data[addr - base + 1 := word / 0x100];
    }

    /** Words one after another. */
    method WriteWords(addr: int, ws: seq<Word>)
      requires base <= addr && addr - base + 2 * |ws| <= |data|
      modifies this`data
      ensures Stored(data, addr - base, ws) && Elsewhere(old(data), data, addr - base, addr - base + 2 * |ws|)
    {
      for i := 0 to |ws|
        invariant Stored(data, addr - base, ws[..i]) && Elsewhere(old(data), data, addr - base, addr - base + 2 * i)
      {
        ghost var before := data;
        WriteWord(addr + 2 * i, ws[i]);
        assert ws[..i + 1] == ws[..i] + [ws[i]];
        StillStored(before, data, addr - base + 2 * i, addr - base + 2 * i + 2, addr - base, ws[..i]);
        StoredOne(data, addr - base + 2 * i, ws[i]);
        StoredSplit(data, addr - base, ws[..i], [ws[i]]);
      }
      assert ws[..|ws|] == ws;
    }

    method Check() returns (ok: bool)
      requires HIGHPTR + 1 < |data|
      ensures ok == (Low() + SPARE < High())
    {
      var low := ReadWord(base + LOWPTR);
      var high := ReadWord(base + HIGHPTR);
      ok := (low as int) + 1024 < high as int;
    }

    /** The next free bytes from the bottom; fails when too little is left above them. */
    method AllocateLowMemory(count: nat) returns (addr: int, ok: bool)
      requires HIGHPTR + 1 < |data|
      modifies this`data
      ensures |data| == old(|data|) && addr == old(Low()) && Low() == (addr + count) % 0x10000 &&
              High() == old(High()) && Kept(old(data), data, 0, 0)
      ensures ok == (Low() + SPARE < High())
    {
      addr := ReadWord(base + LOWPTR);
      WriteWord(base + LOWPTR, addr + count);
      ok := Check();
    }

    /** The next free bytes from the top. */
    method AllocateHighMemory(count: nat) returns (addr: int, ok: bool)
      requires HIGHPTR + 1 < |data|
      modifies this`data
      ensures |data| == old(|data|) && addr == old(High()) - count && High() == addr % 0x10000 &&
              Low() == old(Low()) && Kept(old(data), data, 0, 0)
      ensures ok == (Low() + SPARE < High())
    {
      var high := ReadWord(base + HIGHPTR);
      addr := high - count;
      WriteWord(base + HIGHPTR, addr);
      ok := Check();
    }

    /** Two words as a signed 32-bit number. */
    method ReadLong(addr: int) returns (val: int)
      requires base <= addr && addr - base + 3 < |data|
      ensures -0x8000_0000 <= val < 0x8000_0000
      ensures val % 0x1_0000_0000 == Read(data, addr - base) + 0x10000 * (Read(data, addr - base + 2) as int)
    {
      var low := ReadWord(addr);
      var high := ReadWord(addr + 2);
      val := low + 0x10000 * (high as int);
      if val / 0x8000_0000 % 2 != 0 {
        val := val - 0x1_0000_0000;
      }
    }

    /** Where the links of the program lead. */
    method ProgramEnd() returns (ptr: int)
      requires ProgramHeld()
      ensures ptr == base + End()
    {
      hide Held, Fits;
      ptr := base + PROGRAM;
      ghost var rest := lines;
      while true
        invariant base + PROGRAM <= ptr && Held(data, ptr - base, rest) && AllFit(rest) &&
                  ptr - base + 2 * |Area(rest)| == End()
        decreases |rest|
      {
        if rest == [] {
          HeldEmpty(data, ptr - base);
        } else {
          HeldStep(data, ptr - base, rest);
        }
        var link := ReadWord(ptr);
        if link == 0 {
          break;
        }
        ptr := ptr + link;
        rest := rest[1..];
      }
      assert rest == [] && Area(rest) == [];
    }

    /** Marks the end of the program and frees everything after. */
    method ResetLowMemory() returns (ptr: int)
      requires ProgramHeld()
      modifies this`data
      ensures ProgramHeld() && Marked() && |data| == old(|data|)
      ensures ptr == base + End() && Low() == base + End() + 6 && High() == old(High())
      ensures Kept(old(data), data, End() + 2, End() + 6)
    {
      hide Held, AllFit, Kept, Area;
      ptr := ProgramEnd();
      WriteWord(ptr + 2, 0xeeee);
      WriteWord(ptr + 4, 0xeeee);
      WriteWord(base + LOWPTR, ptr + 6);
      MarksKept(old(data), data, End() + 2, (ptr + 6) % 0x10000);
      StillHeld(old(data), data, End() + 2, lines);
    }

    function NumberFor(number: int): int
      reads this`lastProgramLineNumber
    {
      if number == 0 then lastProgramLineNumber + 1 else number
    }

    /** Room for a line of so many words, with the spare bytes the check wants. */
    ghost predicate RoomFor(words: nat)
      reads this`data, this`lines
      requires ProgramHeld()
    {
      base + End() + 2 * words + 12 + SPARE < High()
    }

    /** Appends one line of text, numbered 1 up from the last when it has no number. It fails once the
        flag for variables is set, for a number out of order, for text that is not BASIC and when
        memory is full; the number counts as used even when the text fails. */
    method AddBASICLine(code: string, number: int) returns (ok: bool)
      requires Valid() && Plain(code)
      modifies this`data, this`lines, this`lastProgramLineNumber, tokeniser
      ensures var n, line := old(NumberFor(number)), LexAll(tokeniser.tokens, code);
              if memoryVariableCreated then !ok && unchanged(this)
              else if Strip(code) == "" then ok && unchanged(this)
              else if !(old(lastProgramLineNumber) < n <= MAX_NUMBER) then !ok && unchanged(this)
              else if line.Bad? then !ok && Valid() && lines == old(lines) && lastProgramLineNumber == n
              else
                && AllLegal(tokeniser.tokens, line.items)
                && ok == old(RoomFor(|Words(tokeniser.tokens, line.items)|))
                && (ok ==> Added(CodeLine(n, Words(tokeniser.tokens, line.items))))
    {
      hide Rising, Strip, LexAll, Words, AllLegal, Held, AllFit, Area, TableReadable, LongestFirst, Plain;
      if memoryVariableCreated {
        return false;
      }
      if Strip(code) == "" {
        return true;
      }
      var lineNumber := if number == 0 then lastProgramLineNumber + 1 else number;
      if !(lineNumber > lastProgramLineNumber && lineNumber <= 32767) {
        return false;
      }
      ghost var was := data;
      var pos := ResetLowMemory();
      RisingMore(lines, lastProgramLineNumber, CodeLine(lineNumber, []));
      ghost var last := lastProgramLineNumber;
      lastProgramLineNumber := lineNumber;
      var tokenised := tokeniser.Tokenise(code);
      if !tokenised {
        return false;
      }
      RisingMore(lines, last, CodeLine(lineNumber, tokeniser.buffer));
      ok := WriteLine(pos, lineNumber, tokeniser.buffer);
    }

    /** A line has gone on the end of the program and nothing before it has changed. */
    twostate predicate Added(line: CodeLine)
      reads this, tokeniser
      requires old(AllFit(lines))
    {
      && Valid() && |data| == old(|data|) && lines == old(lines) + [line] && lastProgramLineNumber == line.number
      && End() == old(End()) + LineSize(line) && Low() == base + End() + 6 && High() == old(High())
      && Kept(old(data), data, old(End()), End() + 6)
    }

    method WriteLine(pos: int, lineNumber: nat, words: seq<Word>) returns (ok: bool)
      requires Valid() && pos == base + End() && Low() == pos + 6 &&
               1 <= lineNumber == lastProgramLineNumber <= MAX_NUMBER
      requires Rising(lines + [CodeLine(lineNumber, words)], lineNumber)
      modifies this`data, this`lines
      ensures ok == old(RoomFor(|words|))
      ensures ok ==> Added(CodeLine(lineNumber, words))
    {
      hide Held, AllFit, Read;
      if pos - base + 2 * (|words| + 4) + 4 > |data| {
        return false;
      }
      var codeLine: seq<Word> := [lineNumber] + words + [0];
      codeLine := [2 * |codeLine| + 2] + codeLine;
      codeLine := codeLine + [0];
      ghost var line, was := CodeLine(lineNumber, words), data;
      assert codeLine == LineWords(line) + [0] && Fits(line);
      hide Rising, LineWords, Fits, Stored, Kept, Elsewhere, TableReadable, LongestFirst;
      WriteWords(pos, codeLine);
      ghost var next := data;
      HeldAppend(was, next, lines, line);
      ElsewhereKept(was, next, pos - base, pos - base + LineSize(line) + 2);
      KeptLength(was, next, pos - base, pos - base + LineSize(line) + 2);
      lines := lines + [line];
      var _ := ResetLowMemory();
      KeptLength(next, data, End() + 2, End() + 6);
      KeptWiden(next, data, End() + 2, End() + 6, pos - base, End() + 6);
      KeptStill(was, next, data, pos - base, End() + 2, End() + 6);
      ok := Check();
    }
  }

  /** The two markers and the low pointer. */
  lemma MarksKept(mem: seq<Byte>, now: seq<Byte>, from: nat, low: Word)
    requires PROGRAM <= from && from + 3 < |mem|
    requires now == Put(Put(Put(mem, from, MARKER), from + 2, MARKER), LOWPTR, low)
    ensures Kept(mem, now, from, from + 4) && Read(now, from) == MARKER && Read(now, from + 2) == MARKER
    ensures Read(now, LOWPTR) == low && Read(now, HIGHPTR) == Read(mem, HIGHPTR)
    ensures forall i :: PROGRAM <= i < from && i < |mem| ==> mem[i] == now[i]
  {
  }

  lemma HeldAppend(mem: seq<Byte>, now: seq<Byte>, lines: seq<CodeLine>, line: CodeLine)
    requires Held(mem, PROGRAM, lines) && Fits(line)
    requires var end := PROGRAM + 2 * |Area(lines)|;
             Elsewhere(mem, now, end, end + LineSize(line) + 2) && Stored(now, end, LineWords(line) + [0])
    ensures AllFit(lines + [line]) && Area(lines + [line]) == Area(lines) + LineWords(line) &&
            Held(now, PROGRAM, lines + [line])
  {
    hide Fits, LineWords;
    var end := PROGRAM + 2 * |Area(lines)|;
    AreaAppend(lines, line);
    StillStored(mem, now, end, end + LineSize(line) + 2, PROGRAM, Area(lines));
    StoredSplit(now, PROGRAM, Area(lines), LineWords(line) + [0]);
    assert Area(lines) + (LineWords(line) + [0]) == Area(lines + [line]) + [0];
    StoredSplit(now, PROGRAM, Area(lines + [line]), [0]);
    StoredOne(now, PROGRAM + 2 * |Area(lines + [line])|, 0);
  }

  /** Bytes below the program and after its end do not matter to it. */
  lemma StillHeld(mem: seq<Byte>, now: seq<Byte>, end: nat, lines: seq<CodeLine>)
    requires Held(mem, PROGRAM, lines) && |mem| == |now| && end == PROGRAM + 2 * |Area(lines)| + 2
    requires forall i :: PROGRAM <= i < end && i < |mem| ==> mem[i] == now[i]
    ensures Held(now, PROGRAM, lines)
  {
    var ws := Area(lines);
    forall i | 0 <= i < |ws|
      ensures Read(now, PROGRAM + 2 * i) == ws[i]
    {
      assert Read(mem, PROGRAM + 2 * i) == ws[i];
    }
  }
}
