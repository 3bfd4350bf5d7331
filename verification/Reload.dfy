/** A listed program loaded again (scripts/dump_export.py, scripts/basicblock.py). */
module Reload {
  import opened Chars
  import opened Tokens
  import opened Lexer
  import opened RoundTrip
  import opened Tokeniser
  import opened Listing
  import opened Block
  import opened Program

  /** A line of a file: the digits at its front are its number and the rest its code. */
  function SourceOf(line: string): Source {
    var s := Strip(line);
    var n := DigitRun(s);
    Source(Value(s[..n]), s[n..])
  }

  /** Lines as loading leaves them: numbered, not empty, and made of items that the tokeniser reads. */
  predicate Loaded(table: seq<Entry>, numbered: seq<Numbered>) {
    forall i :: 0 <= i < |numbered| ==>
      numbered[i].number > 0 && numbered[i].items != [] && AllLexical(table, numbered[i].items)
  }

  predicate AllApart(numbered: seq<Numbered>) {
    forall i :: 0 <= i < |numbered| ==> Apart(numbered[i].items)
  }

  function Relisted(table: seq<Entry>, numbered: seq<Numbered>): (sources: seq<Source>)
    requires Loaded(table, numbered)
    ensures |sources| == |numbered|
  {
    if numbered == [] then []
    else [SourceOf(LineText(numbered[0].number, RenderAll(table, numbered[0].items)))] + Relisted(table, numbered[1..])
  }

  lemma NumberSplits(n: nat, row: string)
    requires Bare(row)
    ensures SourceOf(Digits(n) + " " + row) == Source(n, " " + row)
  {
    var d := Digits(n);
    var s := d + " " + row;
    BareStrip(s);
    assert s == d + (" " + row);
    DigitsRun(d, " " + row);
    assert s[..|d|] == d && s[|d|..] == " " + row;
    DigitsValue(n);
  }

  /** A listed line splits into its number and a text that reads as the line's items do when printed. */
  lemma LineBack(table: seq<Entry>, n: nat, items: seq<Item>)
    requires TableReadable(table) && items != [] && AllLexical(table, items)
    ensures var source := SourceOf(LineText(n, RenderAll(table, items)));
            source.number == n && Strip(source.code) != "" &&
              LexAll(table, source.code) == LexAll(table, RenderAll(table, items))
  {
    var row := Row(table, items);
    StripRender(table, items);
    RowBare(table, items);
    NumberSplits(n, row);
    StripPad(" ", row, "");
    assert " " + row + "" == " " + row;
    SameStrip(table, " " + row, row);
    SameStrip(table, RenderAll(table, items), row);
  }

  lemma {:induction false} NoMoreThan(table: seq<Entry>, last: nat, sources: seq<Source>)
    requires TableReadable(table)
    ensures |NumberedLines(table, last, sources)| <= |sources|
    decreases |sources|
  {
    hide LexAll, TableReadable, Strip;
    if sources != [] {
      NoMoreThan(table, last, sources[1..]);
      NoMoreThan(table, NumberOf(last, sources[0]), sources[1..]);
    }
  }

  /** A program listed and loaded again is the same program exactly when nothing in any of its lines
      runs together. */
  lemma {:induction false} ReloadExactly(table: seq<Entry>, last: nat, numbered: seq<Numbered>)
    requires TableReadable(table) && Loaded(table, numbered)
    ensures NumberedLines(table, last, Relisted(table, numbered)) == numbered <==> AllApart(numbered)
    decreases |numbered|
  {
    hide LexAll, TableReadable, Strip, Apart, RenderAll, LineText, SourceOf;
    if numbered != [] {
      var first, rest := numbered[0], numbered[1..];
      var sources := Relisted(table, numbered);
      assert sources[1..] == Relisted(table, rest);
      LineBack(table, first.number, first.items);
      ReadsBackExactly(table, first.items);
      ReloadExactly(table, first.number, rest);
      NoMoreThan(table, last, sources[1..]);
      assert numbered == [first] + rest;
      assert AllApart(numbered) <==> Apart(first.items) && AllApart(rest) by {
        ApartParts(numbered);
      }
    }
  }

  lemma ApartParts(numbered: seq<Numbered>)
    requires numbered != []
    ensures AllApart(numbered) <==> Apart(numbered[0].items) && AllApart(numbered[1..])
  {
    hide Apart;
    if Apart(numbered[0].items) && AllApart(numbered[1..]) {
      forall i | 0 <= i < |numbered|
        ensures Apart(numbered[i].items)
      {
        assert i > 0 ==> numbered[i] == numbered[1..][i - 1];
      }
    }
  }

  // ----- and the block takes it

  /** Numbers rise and the lines fit in so many bytes. */
  predicate Storable(table: seq<Entry>, last: nat, free: int, numbered: seq<Numbered>)
    requires TableFits(table)
    decreases |numbered|
  {
    if numbered == [] then true
    else
      var first := numbered[0];
      && last < first.number <= MAX_NUMBER && AllLegal(table, first.items)
      && 2 * |Words(table, first.items)| + 12 + SPARE < free
      && Storable(table, first.number, free - 2 * |Words(table, first.items)| - 6, numbered[1..])
  }

  lemma SomeItems(table: seq<Entry>, code: string)
    requires TableReadable(table) && Plain(code) && Strip(code) != "" && LexAll(table, code).Good?
    ensures LexAll(table, code).items != [] && AllLexical(table, LexAll(table, code).items)
  {
    AllReadLexical(table, code);
  }

  lemma LoadedMore(table: seq<Entry>, first: Numbered, rest: seq<Numbered>)
    requires Loaded(table, rest) && first.number > 0 && first.items != [] && AllLexical(table, first.items)
    ensures Loaded(table, [first] + rest)
  {
  }

  /** What a block accepts is loaded and can be stored. */
  lemma {:induction false} AcceptedStores(table: seq<Entry>, last: nat, free: int, sources: seq<Source>)
    requires TableReadable(table) && AllPlainCode(sources) && AllAccepted(table, last, free, sources)
    ensures Loaded(table, NumberedLines(table, last, sources)) &&
            Storable(table, last, free, NumberedLines(table, last, sources))
    decreases |sources|
  {
    hide LexAll, Strip, Words, AllLegal, AllLexical, Plain, Loaded, TableReadable;
    TableParts(table);
    if sources == [] {
      LoadedNone(table, NumberedLines(table, last, sources));
    } else {
      var s, rest := sources[0], sources[1..];
      PlainTail(sources);
      if Strip(s.code) == "" {
        AcceptedStores(table, last, free, rest);
      } else {
        var line, n := LexAll(table, s.code), NumberOf(last, s);
        SomeItems(table, s.code);
        AcceptedStores(table, n, free - 2 * |Words(table, line.items)| - 6, rest);
        LoadedMore(table, Numbered(n, line.items), NumberedLines(table, n, rest));
        var all := NumberedLines(table, last, sources);
        assert all[0] == Numbered(n, line.items) && all[1..] == NumberedLines(table, n, rest);
      }
    }
  }

  lemma TableParts(table: seq<Entry>)
    requires TableReadable(table)
    ensures TableFits(table)
  {
  }

  lemma LexicalLegal(table: seq<Entry>, items: seq<Item>)
    requires AllLexical(table, items)
    ensures AllLegal(table, items)
  {
  }

  lemma LoadedNone(table: seq<Entry>, numbered: seq<Numbered>)
    requires numbered == []
    ensures Loaded(table, numbered)
  {
  }

  lemma PlainTail(sources: seq<Source>)
    requires sources != [] && AllPlainCode(sources)
    ensures Plain(sources[0].code) && AllPlainCode(sources[1..])
  {
    hide Plain;
  }

  lemma LoadedFirst(table: seq<Entry>, numbered: seq<Numbered>)
    requires numbered != [] && Loaded(table, numbered)
    ensures numbered[0].number > 0 && numbered[0].items != [] && AllLexical(table, numbered[0].items) &&
            Loaded(table, numbered[1..])
  {
    hide AllLexical;
  }

  /** The listing of such a program is accepted when nothing in it runs together. */
  lemma {:induction false} RelistedAccepted(table: seq<Entry>, last: nat, free: int, numbered: seq<Numbered>)
    requires TableReadable(table) && Loaded(table, numbered) && AllApart(numbered) &&
             Storable(table, last, free, numbered)
    ensures AllAccepted(table, last, free, Relisted(table, numbered))
    decreases |numbered|
  {
    hide LexAll, Strip, Words, AllLegal, Loaded, TableReadable, Apart, RenderAll, LineText, SourceOf, AllLexical;
    TableParts(table);
    if numbered != [] {
      var first := numbered[0];
      ApartParts(numbered);
      LoadedFirst(table, numbered);
      LineBack(table, first.number, first.items);
      ReadsBackExactly(table, first.items);
      var sources := Relisted(table, numbered);
      assert sources[1..] == Relisted(table, numbered[1..]);
      RelistedAccepted(table, first.number, free - 2 * |Words(table, first.items)| - 6, numbered[1..]);
    }
  }

  /** Any program that went into a block: its listing goes into another like it and makes the same program,
      exactly when nothing in any of its lines runs together. */
  lemma ReloadProgram(table: seq<Entry>, last: nat, free: int, sources: seq<Source>, numbered: seq<Numbered>)
    requires TableReadable(table) && AllPlainCode(sources) && AllAccepted(table, last, free, sources)
    requires numbered == NumberedLines(table, last, sources)
    ensures Loaded(table, numbered)
    ensures AllAccepted(table, last, free, Relisted(table, numbered)) &&
            NumberedLines(table, last, Relisted(table, numbered)) == numbered
       <==> AllApart(numbered)
  {
    hide AllAccepted, NumberedLines, Loaded, AllApart, Relisted, TableReadable, AllPlainCode, Storable;
    AcceptedStores(table, last, free, sources);
    ReloadExactly(table, last, numbered);
    if AllApart(numbered) {
      RelistedAccepted(table, last, free, numbered);
    }
  }

  // ----- from block to block

  lemma LinePlain(table: seq<Entry>, n: nat, items: seq<Item>)
    requires TableReadable(table) && items != [] && AllLexical(table, items)
    ensures Plain(SourceOf(LineText(n, RenderAll(table, items))).code)
  {
    hide LexAll, TableReadable, AllLexical, Plain, RenderAll, Row;
    LexicalLegal(table, items);
    var row := Row(table, items);
    StripRender(table, items);
    RowBare(table, items);
    NumberSplits(n, row);
    AllPlain(table, items);
    StripPlain(RenderAll(table, items));
    SpacePlain(row);
  }

  lemma SpacePlain(s: string)
    requires Plain(s)
    ensures Plain(" " + s)
  {
  }

  lemma {:induction false} RelistedPlain(table: seq<Entry>, numbered: seq<Numbered>)
    requires TableReadable(table) && Loaded(table, numbered)
    ensures AllPlainCode(Relisted(table, numbered))
    decreases |numbered|
  {
    hide Plain, TableReadable, AllLexical, RenderAll, LineText, SourceOf, Loaded;
    if numbered != [] {
      LoadedFirst(table, numbered);
      LinePlain(table, numbered[0].number, numbered[0].items);
      RelistedPlain(table, numbered[1..]);
    }
  }

  /** Lines determine what they were made from. */
  lemma LinesDetermine(table: seq<Entry>, lines: seq<CodeLine>, a: seq<Numbered>, b: seq<Numbered>)
    requires TableFits(table) && AllMatch(table, lines, a) && AllMatch(table, lines, b)
    ensures a == b
  {
    hide Words, AllLegal, TableFits;
    forall i | 0 <= i < |lines|
      ensures a[i] == b[i]
    {
      assert LineMatches(table, lines[i], a[i]) && LineMatches(table, lines[i], b[i]);
      WordsDetermineItems(table, a[i].items, b[i].items);
    }
  }

  lemma SameLines(table: seq<Entry>, a: seq<CodeLine>, b: seq<CodeLine>, numbered: seq<Numbered>)
    requires AllMatch(table, a, numbered) && AllMatch(table, b, numbered)
    ensures a == b
  {
    hide Words, AllLegal, TableFits;
    forall i | 0 <= i < |a|
      ensures a[i] == b[i]
    {
      assert LineMatches(table, a[i], numbered[i]) && LineMatches(table, b[i], numbered[i]);
    }
  }

  /** Loads a program into one block and its listing into another of the same kind: the second takes it
      and holds the very same lines exactly when nothing in any of them runs together. */
  method LoadAndReload(first: BasicBlock, second: BasicBlock, sources: seq<Source>) returns (ok: bool, again: bool)
    requires first != second && first.tokeniser != second.tokeniser && first.tokeniser.tokens == second.tokeniser.tokens
    requires first.Valid() && second.Valid() && first.lines == second.lines == [] &&
             !first.memoryVariableCreated && !second.memoryVariableCreated
    requires first.lastProgramLineNumber == second.lastProgramLineNumber &&
             first.High() - first.base == second.High() - second.base
    requires AllPlainCode(sources)
    modifies first`data, first`lines, first`lastProgramLineNumber, first.tokeniser
    modifies second`data, second`lines, second`lastProgramLineNumber, second.tokeniser
    ensures ok ==
            AllAccepted(first.tokeniser.tokens, old(first.lastProgramLineNumber),
            old(first.High() - first.base - first.End()), sources)
    ensures ok ==>
            (again && second.lines == first.lines <==>
            AllApart(NumberedLines(first.tokeniser.tokens, old(first.lastProgramLineNumber), sources)))
  {
    hide BasicBlock.Valid, AllAccepted, NumberedLines, Loaded, AllApart, Relisted, TableReadable,
      AllPlainCode, AllMatch, Lists, AllFit, Area, Kept;
    ReadableTable(first);
    var table, last := first.tokeniser.tokens, first.lastProgramLineNumber;
    ghost var free := first.High() - first.base - first.End();
    SameRoom(first, second);
    again := false;
    ok := LoadLines(first, sources);
    if ok {
      var numbered := NumberedLines(table, last, sources);
      assert first.lines[0..] == first.lines;
      ReloadProgram(table, last, free, sources, numbered);
      RelistedPlain(table, numbered);
      ghost var relisted := Relisted(table, numbered);
      again := LoadLines(second, Relisted(table, numbered));
      if again {
        assert second.lines[0..] == second.lines;
        LinesAlike(table, first.lines, second.lines, numbered, NumberedLines(table, last, relisted));
      }
    }
  }

  lemma ReadableTable(block: BasicBlock)
    requires block.Valid()
    ensures TableReadable(block.tokeniser.tokens) && TableFits(block.tokeniser.tokens) &&
            AllFit(block.lines) && HIGHPTR + 1 < |block.data|
  {
  }

  lemma SameRoom(first: BasicBlock, second: BasicBlock)
    requires first.Valid() && second.Valid() && first.lines == second.lines
    ensures AllFit(first.lines) && AllFit(second.lines) && first.End() == second.End() && HIGHPTR + 1 < |second.data|
  {
  }

  lemma LinesAlike(table: seq<Entry>, a: seq<CodeLine>, b: seq<CodeLine>, numbered: seq<Numbered>,
                   others: seq<Numbered>)
    requires TableFits(table) && AllMatch(table, a, numbered) && AllMatch(table, b, others)
    ensures a == b <==> numbered == others
  {
    if a == b {
      LinesDetermine(table, a, numbered, others);
    } else if numbered == others {
      SameLines(table, a, b, numbered);
    }
  }
}
