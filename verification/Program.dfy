/** Whole programs: any run of added lines, and what following the links of the memory block then
    lists (scripts/basicblock.py, scripts/dump_export.py). */
module Program {
  import opened Primitives
  import opened Chars
  import opened Tokens
  import opened Lexer
  import opened Tokeniser
  import opened Listing
  import opened Block

  /** A line as it comes from the source file; 0 stands for no number. */
  datatype Source = Source(number: nat, code: string)

  predicate AllPlainCode(sources: seq<Source>) {
    forall i :: 0 <= i < |sources| ==> Plain(sources[i].code)
  }

  /** The items and number of every line that is not blank. */
  datatype Numbered = Numbered(number: nat, items: seq<Item>)

  function NumberOf(last: nat, source: Source): nat {
    if source.number == 0 then last + 1 else source.number
  }

  function NumberedLines(table: seq<Entry>, last: nat, sources: seq<Source>): seq<Numbered>
    requires TableReadable(table)
    decreases |sources|
  {
    if sources == [] then []
    else if Strip(sources[0].code) == "" ||
      LexAll(table, sources[0].code).Bad? then NumberedLines(table, last, sources[1..])
    else
      var n := NumberOf(last, sources[0]);
      [Numbered(n, LexAll(table, sources[0].code).items)] + NumberedLines(table, n, sources[1..])
  }

  /** This program line holds these items under this number. */
  predicate LineMatches(table: seq<Entry>, line: CodeLine, numbered: Numbered) {
    TableFits(table) && AllLegal(table, numbered.items) &&
      line == CodeLine(numbered.number, Words(table, numbered.items))
  }

  predicate AllMatch(table: seq<Entry>, lines: seq<CodeLine>, numbered: seq<Numbered>) {
    |lines| == |numbered| && forall i :: 0 <= i < |lines| ==> LineMatches(table, lines[i], numbered[i])
  }

  function Texts(table: seq<Entry>, numbered: seq<Numbered>): seq<string>
    requires forall i :: 0 <= i < |numbered| ==> AllLegal(table, numbered[i].items)
  {
    seq(|numbered|, i requires 0 <= i < |numbered| => LineText(numbered[i].number, RenderAll(table, numbered[i].items)))
  }

  lemma MatchTail(table: seq<Entry>, lines: seq<CodeLine>, numbered: seq<Numbered>)
    requires lines != [] && AllMatch(table, lines, numbered)
    ensures LineMatches(table, lines[0], numbered[0]) && AllMatch(table, lines[1..], numbered[1..])
  {
  }

  lemma FirstListed(table: seq<Entry>, mem: seq<Byte>, pos: nat, lines: seq<CodeLine>, first: Numbered)
    requires lines != [] && Held(mem, pos, lines) && LineMatches(table, lines[0], first)
    ensures Fits(lines[0]) &&
            DecodeFrom(table, mem, pos) ==
            FirstLine(first.number, RenderAll(table, first.items), DecodeFrom(table, mem, pos + LineSize(lines[0])))
  {
    hide Held, Print, LineText, RenderAll, Words, AllLegal, StoredLine, Fits, Area, LineWords, TableFits;
    HeldStep(mem, pos, lines);
    LinePrints(table, mem, pos + 4, first.items);
  }

  /** Walking the links visits exactly the lines held, in order, and prints each of them. */
  lemma {:induction false} WalkLists(table: seq<Entry>, mem: seq<Byte>, pos: nat, lines: seq<CodeLine>,
                                     numbered: seq<Numbered>)
    requires Held(mem, pos, lines) && AllMatch(table, lines, numbered)
    ensures forall i :: 0 <= i < |numbered| ==> AllLegal(table, numbered[i].items)
    ensures DecodeFrom(table, mem, pos) == Decoded(Texts(table, numbered))
    decreases |lines|
  {
    hide Held, Print, LineText, RenderAll, Words, AllLegal, StoredLine, Fits, Area, LineWords, TableFits;
    assert forall i :: 0 <= i < |numbered| ==> LineMatches(table, lines[i], numbered[i]);
    if lines == [] {
      HeldEmpty(mem, pos);
      assert Texts(table, numbered) == [];
    } else {
      FirstListed(table, mem, pos, lines, numbered[0]);
      HeldStep(mem, pos, lines);
      MatchTail(table, lines, numbered);
      WalkLists(table, mem, pos + LineSize(lines[0]), lines[1..], numbered[1..]);
      assert [LineText(numbered[0].number, RenderAll(table, numbered[0].items))] +
        Texts(table, numbered[1..]) == Texts(table, numbered);
    }
  }

  // ----- a run of added lines

  /** All the lines are readable, in order and fit in so many bytes. */
  predicate AllAccepted(table: seq<Entry>, last: nat, free: int, sources: seq<Source>)
    requires TableReadable(table)
    decreases |sources|
  {
    if sources == [] then true
    else if Strip(sources[0].code) == "" then AllAccepted(table, last, free, sources[1..])
    else
      var n, line := NumberOf(last, sources[0]), LexAll(table, sources[0].code);
      && last < n <= MAX_NUMBER && line.Good? && AllLegal(table, line.items)
      && 2 * |Words(table, line.items)| + 12 + SPARE < free
      && AllAccepted(table, n, free - 2 * |Words(table, line.items)| - 6, sources[1..])
  }

  lemma NextAccepted(table: seq<Entry>, last: nat, free: int, sources: seq<Source>, i: nat)
    requires TableReadable(table) && i < |sources|
    ensures var s := sources[i]; var line := LexAll(table, s.code);
            AllAccepted(table, last, free, sources[i..]) ==
            if Strip(s.code) == "" then AllAccepted(table, last, free, sources[i + 1..])
            else
              && last < NumberOf(last, s) <= MAX_NUMBER && line.Good? && AllLegal(table, line.items)
              && 2 * |Words(table, line.items)| + 12 + SPARE < free
              && AllAccepted(table, NumberOf(last, s), free - 2 * |Words(table, line.items)| - 6, sources[i + 1..])
  {
    hide LexAll, Words, AllLegal, Strip, TableReadable;
    assert sources[i..][0] == sources[i] && sources[i..][1..] == sources[i + 1..];
  }

  /** What the run so far, then the rest, makes of the sources. */
  lemma NextNumbered(table: seq<Entry>, last: nat, sources: seq<Source>, i: nat, done: seq<Numbered>,
                     all: seq<Numbered>)
    requires TableReadable(table) && i < |sources| && all == done + NumberedLines(table, last, sources[i..])
    ensures var s := sources[i];
            if Strip(s.code) == "" then all == done + NumberedLines(table, last, sources[i + 1..])
            else LexAll(table, s.code).Good? ==>
              all == done + [Numbered(NumberOf(last, s), LexAll(table, s.code).items)] +
                NumberedLines(table, NumberOf(last, s), sources[i + 1..])
  {
    var s := sources[i];
    assert sources[i..][0] == s && sources[i..][1..] == sources[i + 1..];
    if Strip(s.code) != "" && LexAll(table, s.code).Good? {
      var one := [Numbered(NumberOf(last, s), LexAll(table, s.code).items)];
      assert done + (one + NumberedLines(table, NumberOf(last, s), sources[i + 1..])) == done + one +
        NumberedLines(table, NumberOf(last, s), sources[i + 1..]);
    }
  }

  lemma MatchAppend(table: seq<Entry>, lines: seq<CodeLine>, numbered: seq<Numbered>, one: Numbered)
    requires AllMatch(table, lines, numbered) && TableReadable(table) && AllLegal(table, one.items)
    ensures AllMatch(table, lines + [CodeLine(one.number, Words(table, one.items))], numbered + [one])
  {
  }

  /** Adds the lines one after another, as loading a file does. They are all accepted exactly when they are
      readable, rising and fit together; then the block holds them after the lines it had, and if those
      were made of items too, following the links lists both. */
  method LoadLines(block: BasicBlock, sources: seq<Source>) returns (ok: bool)
    requires block.Valid() && !block.memoryVariableCreated && AllPlainCode(sources)
    modifies block`data, block`lines, block`lastProgramLineNumber, block.tokeniser
    ensures ok ==
            AllAccepted(block.tokeniser.tokens, old(block.lastProgramLineNumber),
            old(block.High() - block.base - block.End()), sources)
    ensures ok ==> block.Valid() && Kept(old(block.data), block.data, PROGRAM, |block.data|)
    ensures ok ==> var table := block.tokeniser.tokens;
                   var all := NumberedLines(table, old(block.lastProgramLineNumber), sources);
                   && |old(block.lines)| <= |block.lines| && block.lines[..|old(block.lines)|] == old(block.lines)
                   && AllMatch(table, block.lines[|old(block.lines)|..], all)
                   && forall before :: AllMatch(table, old(block.lines), before) ==> Lists(block, before + all)
  {
    hide LexAll, Words, AllLegal, Held, AllFit, TableReadable, LongestFirst, Plain, Strip, Rising,
      NumberedLines, AllAccepted, Kept, LineMatches, AllMatch, TableFits, Lists, Read;
    ghost var table, start, added, done := block.tokeniser.tokens, block.lines, [], [];
    ghost var all := NumberedLines(table, block.lastProgramLineNumber, sources);
    KeptItself(block.data, PROGRAM, |block.data|);
    ghost var accepted := AllAccepted(table, block.lastProgramLineNumber,
                                      block.High() - block.base - block.End(), sources);
    assert sources[0..] == sources && done + all == all && start + added == start;
    NoneMatch(table, added, done);
    for i := 0 to |sources|
      invariant block.Valid() && block.lines == start + added && AllMatch(table, added, done)
      invariant AllAccepted(table, block.lastProgramLineNumber, block.High() - block.base - block.End(),
                sources[i..]) == accepted
      invariant Kept(old(block.data), block.data, PROGRAM, |block.data|)
      invariant all == done + NumberedLines(table, block.lastProgramLineNumber, sources[i..])
    {
      ghost var last, was, end := block.lastProgramLineNumber, block.data, block.End();
      NextNumbered(table, last, sources, i, done, all);
      NextAccepted(table, last, block.High() - block.base - block.End(), sources, i);
      ok := block.AddBASICLine(sources[i].code, sources[i].number);
      if !ok {
        return;
      }
      if Strip(sources[i].code) != "" {
        ghost var one := Numbered(NumberOf(last, sources[i]), LexAll(table, sources[i].code).items);
        ghost var line := CodeLine(one.number, Words(table, one.items));
        MatchAppend(table, added, done, one);
        KeptWiden(was, block.data, end, block.End() + 6, PROGRAM, |block.data|);
        KeptStill(old(block.data), was, block.data, PROGRAM, |block.data|, |block.data|);
        assert start + added + [line] == start + (added + [line]);
        added, done := added + [line], done + [one];
      }
    }
    NoneLeft(table, block.lastProgramLineNumber, block.High() - block.base - block.End(), sources);
    LoadedAll(table, block.lastProgramLineNumber, sources, done, all);
    ok := true;
    assert block.lines[..|start|] == start && block.lines[|start|..] == added;
    ListsBoth(block, start, added, all);
  }

  lemma ListsBoth(block: BasicBlock, start: seq<CodeLine>, added: seq<CodeLine>, all: seq<Numbered>)
    requires block.Valid() && block.lines == start + added && AllMatch(block.tokeniser.tokens, added, all)
    ensures forall before :: AllMatch(block.tokeniser.tokens, start, before) ==> Lists(block, before + all)
  {
    hide AllMatch, Lists;
    forall before | AllMatch(block.tokeniser.tokens, start, before)
      ensures Lists(block, before + all)
    {
      BothMatch(block.tokeniser.tokens, start, before, added, all);
      ListsMatching(block, before + all);
    }
  }

  /** Following the links from the start of the program gives exactly these lines, printed. */
  ghost predicate Lists(block: BasicBlock, numbered: seq<Numbered>)
    reads block
  {
    var table := block.tokeniser.tokens;
    && (forall i :: 0 <= i < |numbered| ==> AllLegal(table, numbered[i].items))
    && DecodeFrom(table, block.data, PROGRAM) == Decoded(Texts(table, numbered))
  }

  lemma ListsMatching(block: BasicBlock, numbered: seq<Numbered>)
    requires block.Valid() && AllMatch(block.tokeniser.tokens, block.lines, numbered)
    ensures Lists(block, numbered)
  {
    hide AllMatch, Held, DecodeFrom, TableReadable, LongestFirst, Rising, Area, AllLegal;
    WalkLists(block.tokeniser.tokens, block.data, PROGRAM, block.lines, numbered);
  }

  lemma BothMatch(table: seq<Entry>, a: seq<CodeLine>, before: seq<Numbered>, b: seq<CodeLine>, all: seq<Numbered>)
    requires AllMatch(table, a, before) && AllMatch(table, b, all)
    ensures AllMatch(table, a + b, before + all)
  {
    hide LineMatches;
  }

  lemma NoneMatch(table: seq<Entry>, lines: seq<CodeLine>, numbered: seq<Numbered>)
    requires lines == [] && numbered == []
    ensures AllMatch(table, lines, numbered)
  {
  }

  lemma NoneLeft(table: seq<Entry>, last: nat, free: int, sources: seq<Source>)
    requires TableReadable(table)
    ensures AllAccepted(table, last, free, sources[|sources|..])
  {
  }

  lemma LoadedAll(table: seq<Entry>, last: nat, sources: seq<Source>, done: seq<Numbered>, all: seq<Numbered>)
    requires TableReadable(table) && all == done + NumberedLines(table, last, sources[|sources|..])
    ensures all == done
  {
  }
}
