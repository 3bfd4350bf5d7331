/** Code added after a variable: the guard against it never triggers, and when the record of the variable
    survives all the same (scripts/basicblock.py, scripts/old_testing/variables.py). */
module CodeAfter {
  import opened Primitives
  import opened Chars
  import opened Tokens
  import opened Lexer
  import opened RoundTrip
  import opened Tokeniser
  import opened Listing
  import opened Block
  import opened Records
  import opened Variables
  import opened Imports
  import opened VariableRuns

  /** What a line leaves from its second word on: the rest of it, its end mark, the end of the program
      and the two markers. */
  function Overlay(words: seq<Word>): (ws: seq<Word>)
    requires words != []
    ensures |ws| == |words| + 3
  {
    words[1..] + [0, 0, MARKER, MARKER]
  }

  /** Memory that holds a line at an address, the program's end after it and the markers. */
  lemma OverlayStored(mem: seq<Byte>, addr: nat, line: CodeLine)
    requires Fits(line) && line.words != [] && Stored(mem, addr, LineWords(line) + [0])
    requires addr + LineSize(line) + 5 < |mem| && Read(mem, addr + LineSize(line) + 2) == MARKER &&
             Read(mem, addr + LineSize(line) + 4) == MARKER
    ensures Stored(mem, addr + 6, Overlay(line.words))
  {
    var all, head := LineWords(line) + [0], [LineSize(line), line.number, line.words[0]];
    assert all == head + (line.words[1..] + [0, 0]);
    assert |LineWords(line)| == |line.words| + 3;
    var end := addr + LineSize(line) + 2;
    hide Stored, Fits, LineWords, Read;
    StoredSplit(mem, addr, head, line.words[1..] + [0, 0]);
    StoredOne(mem, end, MARKER);
    StoredOne(mem, end + 2, MARKER);
    StoredSplit(mem, end, [MARKER], [MARKER]);
    assert [MARKER] + [MARKER] == [MARKER, MARKER];
    StoredSplit(mem, addr + 6, line.words[1..] + [0, 0], [MARKER, MARKER]);
    assert line.words[1..] + [0, 0] + [MARKER, MARKER] == Overlay(line.words);
  }

  /** Words stored at the same place: the shorter are a prefix of the longer. */
  lemma StoredPrefix(mem: seq<Byte>, addr: nat, a: seq<Word>, b: seq<Word>)
    requires Stored(mem, addr, b) && |a| <= |b|
    ensures Stored(mem, addr, a) <==> a <= b
  {
    if Stored(mem, addr, a) {
      forall i | 0 <= i < |a|
        ensures a[i] == b[i]
      {
        assert Read(mem, addr + 2 * i) == a[i] && Read(mem, addr + 2 * i) == b[i];
      }
    } else if a <= b {
      forall i | 0 <= i < |a|
        ensures Read(mem, addr + 2 * i) == a[i]
      {
        assert a[i] == b[i] && Read(mem, addr + 2 * i) == b[i];
      }
    }
  }

  /** The last line of a program and the end mark after it. */
  lemma LastLine(mem: seq<Byte>, lines: seq<CodeLine>, line: CodeLine)
    requires AllFit(lines) && Held(mem, PROGRAM, lines + [line])
    ensures Fits(line) && Stored(mem, PROGRAM + 2 * |Area(lines)|, LineWords(line) + [0])
  {
    var all, end := lines + [line], PROGRAM + 2 * |Area(lines)|;
    assert Fits(all[|lines|]);
    hide Fits, LineWords, Stored;
    AreaAppend(lines, line);
    StoredLineSplit(mem, PROGRAM, Area(lines), LineWords(line));
    StoredOne(mem, end + 2 * |LineWords(line)|, 0);
    StoredSplit(mem, end, LineWords(line), [0]);
  }

  // ----- the records spelled out

  /** The link of a record in its chain. */
  function LinkAt(ps: seq<Placed>, k: nat): Word
    requires k < |ps|
  {
    if k + 1 < |ps| then ps[k + 1].addr else 0
  }

  function LinkOf(ps: seq<Placed>, p: Placed): Word {
    if ps == [] then 0 else if ps[0] == p then LinkAt(ps, 0) else LinkOf(ps[1..], p)
  }

  /** The words of a record as it hangs in the chains. */
  function HungWords(chains: seq<seq<Placed>>, p: Placed): seq<Word>
    requires |chains| == SLOTS && p.name != []
  {
    RecordWords(p, LinkOf(chains[Slot(p)], p))
  }

  /** The words of all records one after another. */
  ghost function AreaWords(chains: seq<seq<Placed>>, order: seq<Placed>): seq<Word>
    requires |chains| == SLOTS && forall p :: p in order ==> p.name != []
    decreases |order|
  {
    if order == [] then []
    else AreaWords(chains, order[..|order| - 1]) + HungWords(chains, order[|order| - 1])
  }

  /** The number of strings is that of their addresses, as in any record in memory. */
  predicate Whole(p: Placed) {
    && p.name != [] && Counted(p.v)
    && (p.v.values.Texts? ==> |p.texts| == |p.v.values.texts|)
  }

  predicate AllWhole(ps: seq<Placed>) {
    forall p :: p in ps ==> Whole(p)
  }

  lemma HungSize(chains: seq<seq<Placed>>, p: Placed)
    requires |chains| == SLOTS && Whole(p)
    ensures 2 * |HungWords(chains, p)| == RecordSize(p.v)
  {
    hide LinkOf, Slot;
    RecordLength(p, LinkOf(chains[Slot(p)], p));
  }

  /** Each lies between the ends. */
  lemma {:induction false} LiesWithin(order: seq<Placed>, from: int, end: int)
    requires InLine(order, from, end)
    ensures from <= end && forall p :: p in order ==> from <= p.addr && p.addr + RecordSize(p.v) <= end
    ensures order != [] ==> order[0].addr == from
    decreases |order|
  {
    if order != [] {
      var before, last := order[..|order| - 1], order[|order| - 1];
      LiesWithin(before, from, last.addr);
      assert order == before + [last];
    }
  }

  lemma {:induction false} AreaSize(chains: seq<seq<Placed>>, order: seq<Placed>, from: int, end: int)
    requires |chains| == SLOTS && AllWhole(order) && InLine(order, from, end)
    ensures end == from + 2 * |AreaWords(chains, order)|
    decreases |order|
  {
    hide HungWords, RecordSize, Counted;
    if order != [] {
      var before, last := order[..|order| - 1], order[|order| - 1];
      HungSize(chains, last);
      AreaSize(chains, before, from, last.addr);
    }
  }

  /** Together they lie in memory exactly when each lies in its own place. */
  lemma {:induction false} AreaParts(mem: seq<Byte>, base: nat, chains: seq<seq<Placed>>, order: seq<Placed>, from: nat,
                                     end: int)
    requires |chains| == SLOTS && AllWhole(order) && InLine(order, base + from, base + end) && end <= |mem|
    ensures forall p :: p in order ==> base <= p.addr
    ensures Stored(mem, from, AreaWords(chains, order)) <==>
              forall p :: p in order ==> Stored(mem, p.addr - base, HungWords(chains, p))
    decreases |order|
  {
    hide Stored, HungWords, RecordSize, Counted;
    LiesWithin(order, base + from, base + end);
    if order != [] {
      var before, last := order[..|order| - 1], order[|order| - 1];
      Positive(last.v);
      assert last in order && last.name != [];
      AreaParts(mem, base, chains, before, from, last.addr - base);
      AreaSize(chains, before, base + from, last.addr);
      StoredSplit(mem, from, AreaWords(chains, before), HungWords(chains, last));
      hide *;
      assert forall p :: p in order <==> p in before || p == last;
    } else {
      NothingStored(mem, from);
    }
  }

  lemma Positive(v: Var)
    ensures RecordSize(v) >= 4
  {
  }

  lemma NothingStored(mem: seq<Byte>, addr: nat)
    requires addr <= |mem|
    ensures Stored(mem, addr, [])
  {
  }

  // ----- chains and what their records say

  /** Records come in falling order, each with the link to the next. */
  lemma {:induction false} ChainRecords(mem: seq<Byte>, base: nat, link: Word, ps: seq<Placed>, low: nat, high: nat)
    requires Chain(mem, base, link, ps, low, high)
    ensures forall k :: 0 <= k < |ps| ==> RecordAt(mem, base, ps[k], LinkAt(ps, k), low, high) && ps[k].addr <= link
    ensures forall j, k :: 0 <= j < k < |ps| ==> ps[k].addr < ps[j].addr
    decreases |ps|
  {
    hide RecordAt, Read;
    if ps != [] {
      var next := Read(mem, link - base);
      ChainRecords(mem, base, next, ps[1..], low, high);
      assert next == LinkAt(ps, 0);
      forall k | 1 <= k < |ps|
        ensures RecordAt(mem, base, ps[k], LinkAt(ps, k), low, high) && ps[k].addr <= next
      {
        assert ps[k] == ps[1..][k - 1] && LinkAt(ps, k) == LinkAt(ps[1..], k - 1);
      }
    }
  }

  lemma {:induction false} LinkOfAt(ps: seq<Placed>, k: nat)
    requires k < |ps| && forall i, j :: 0 <= i < j < |ps| ==> ps[j].addr < ps[i].addr
    ensures LinkOf(ps, ps[k]) == LinkAt(ps, k)
    decreases k
  {
    if k > 0 {
      LinkOfAt(ps[1..], k - 1);
      assert ps[1..][k - 1] == ps[k] && ps[0] != ps[k] && LinkAt(ps[1..], k - 1) == LinkAt(ps, k);
    }
  }

  /** A chain stands in another memory in which every record does. */
  lemma {:induction false} ChainRebuilt(mem: seq<Byte>, now: seq<Byte>, base: nat, link: Word,
                                        ps: seq<Placed>, low: nat, high: nat, low': nat)
    requires Chain(mem, base, link, ps, low, high) && |mem| == |now|
    requires forall k :: 0 <= k < |ps| ==> RecordAt(now, base, ps[k], LinkAt(ps, k), low', high)
    ensures Chain(now, base, link, ps, low', high)
    decreases |ps|
  {
    hide RecordAt, Read;
    if ps != [] {
      var next := Read(mem, link - base);
      assert RecordAt(now, base, ps[0], LinkAt(ps, 0), low', high);
      assert next == LinkAt(ps, 0) by {
        ChainRecords(mem, base, next, ps[1..], low, high);
      }
      LinkRead(now, base, ps[0], next, low', high);
      forall k | 0 <= k < |ps| - 1
        ensures RecordAt(now, base, ps[1..][k], LinkAt(ps[1..], k), low', high)
      {
        assert ps[1..][k] == ps[k + 1] && LinkAt(ps[1..], k) == LinkAt(ps, k + 1);
      }
      ChainRebuilt(mem, now, base, next, ps[1..], low, high, low');
    }
  }

  lemma LinkRead(mem: seq<Byte>, base: nat, p: Placed, link: Word, low: nat, high: nat)
    requires RecordAt(mem, base, p, link, low, high)
    ensures base <= p.addr && p.addr - base + 1 < |mem| && Read(mem, p.addr - base) == link
  {
    assert Read(mem, p.addr - base + 2 * 0) == RecordWords(p, link)[0];
  }

  /** A record in place of which the code has written survives exactly when its words have been written again and
      the free space begins after them. Its name and strings lie above anything a line can reach. */
  lemma RecordSurvives(mem: seq<Byte>, now: seq<Byte>, base: nat, p: Placed, link: Word, end: nat, low: nat, low': nat,
                       high: nat)
    requires RecordAt(mem, base, p, link, low, high) && Kept(mem, now, end, low') && PROGRAM <= end <= low' <= high
    ensures RecordAt(now, base, p, link, low', high) <==>
            p.addr - base + RecordSize(p.v) <= low' && Stored(now, p.addr - base, RecordWords(p, link))
  {
    hide Stored, TextsAt, Kept, RecordWords, RecordSize, Counted;
    KeptStored(mem, now, end, low', p.id - base, p.name);
    if p.v.values.Texts? {
      KeptAgrees(mem, now, end, low', high);
      TextsKept(mem, now, base, p.texts, p.v.values.texts, end, high, high);
    }
  }

  lemma RecordWhole(mem: seq<Byte>, base: nat, p: Placed, link: Word, low: nat, high: nat)
    requires RecordAt(mem, base, p, link, low, high)
    ensures Whole(p) && base <= p.addr
  {
  }

  /** Every record laid hangs in the chain of its slot, and its link there is the one spelled out. */
  lemma HungRecord(mem: seq<Byte>, base: nat, chains: seq<seq<Placed>>, p: Placed, low: nat, high: nat)
    requires AllChains(mem, base, chains, low, high) && p.name != [] && p in chains[Slot(p)]
    ensures RecordAt(mem, base, p, LinkOf(chains[Slot(p)], p), low, high) && Whole(p)
  {
    hide RecordAt, Slot, SlotOf, Whole;
    var s := Slot(p);
    var k :| 0 <= k < |chains[s]| && chains[s][k] == p;
    assert ChainAt(mem, base, chains[s], s, low, high);
    ChainRecords(mem, base, Read(mem, HASHTABLE + 2 * s), chains[s], low, high);
    LinkOfAt(chains[s], k);
    RecordWhole(mem, base, p, LinkAt(chains[s], k), low, high);
  }

  lemma AllHung(mem: seq<Byte>, base: nat, chains: seq<seq<Placed>>, order: seq<Placed>, low: nat, high: nat)
    requires AllChains(mem, base, chains, low, high) && Spread(chains, order)
    ensures AllWhole(order)
    ensures forall p :: p in order ==> RecordAt(mem, base, p, LinkOf(chains[Slot(p)], p), low, high)
  {
    hide RecordAt, Slot, Whole, LinkOf, AllChains;
    forall p | p in order
      ensures Whole(p) && RecordAt(mem, base, p, LinkOf(chains[Slot(p)], p), low, high)
    {
      HungRecord(mem, base, chains, p, low, high);
    }
  }

  /** The chains stand again when every record of the order is in place and the slots are what they were. */
  lemma ChainsStand(mem: seq<Byte>, now: seq<Byte>, base: nat, chains: seq<seq<Placed>>, order: seq<Placed>, low: nat,
                    low': nat, high: nat)
    requires AllChains(mem, base, chains, low, high) && Spread(chains, order) && |now| == |mem|
    requires forall s :: 0 <= s < SLOTS ==> Read(now, HASHTABLE + 2 * s) == Read(mem, HASHTABLE + 2 * s)
    requires forall p :: p in order ==> RecordAt(now, base, p, LinkOf(chains[Slot(p)], p), low', high)
    ensures AllChains(now, base, chains, low', high)
  {
    hide RecordAt, SlotOf, LinkOf, Read;
    forall s | 0 <= s < SLOTS
      ensures ChainAt(now, base, chains[s], s, low', high)
    {
      assert ChainAt(mem, base, chains[s], s, low, high);
      var ps, link := chains[s], Read(mem, HASHTABLE + 2 * s);
      ChainRecords(mem, base, link, ps, low, high);
      forall k | 0 <= k < |ps|
        ensures RecordAt(now, base, ps[k], LinkAt(ps, k), low', high)
      {
        assert ps[k] in chains[s] && ps[k] in order && Slot(ps[k]) == s;
        LinkOfAt(ps, k);
      }
      ChainRebuilt(mem, now, base, link, ps, low, high, low');
    }
  }

  /** After the line the chains are whole exactly when all records have been spelled out again below the free
      space. */
  lemma ChainsSurvive(mem: seq<Byte>, now: seq<Byte>, base: nat, chains: seq<seq<Placed>>, order: seq<Placed>, end: nat,
                      low: nat, low': nat, high: nat)
    requires AllChains(mem, base, chains, low, high) && PackedIn(chains, order, base + end + 6, base + low)
    requires Kept(mem, now, end, low') && PROGRAM <= end && end + 6 <= low' <= high <= |mem| == |now| && low <= high
    ensures |chains| == SLOTS && (forall p :: p in order ==> p.name != [])
    ensures low == end + 6 + 2 * |AreaWords(chains, order)|
    ensures AllChains(now, base, chains, low', high) <==> low <= low' && Stored(now, end + 6, AreaWords(chains, order))
  {
    hide AllChains, Kept, Stored, RecordAt, Whole, Slot, SlotOf, LinkOf, RecordSize, Read, RecordWords;
    AllHung(mem, base, chains, order, low, high);
    AreaParts(now, base, chains, order, end + 6, low);
    AreaSize(chains, order, base + end + 6, base + low);
    LiesWithin(order, base + end + 6, base + low);
    SlotsSame(mem, now, end, low', chains, base, low, high);
    forall p | p in order
      ensures RecordAt(now, base, p, LinkOf(chains[Slot(p)], p), low', high) <==>
              p.addr - base + RecordSize(p.v) <= low' && Stored(now, p.addr - base, HungWords(chains, p))
    {
      RecordSurvives(mem, now, base, p, LinkOf(chains[Slot(p)], p), end, low, low', high);
    }
    if AllChains(now, base, chains, low', high) {
      AllHung(now, base, chains, order, low', high);
      if order != [] {
        assert order[|order| - 1] in order;
      }
    }
    if low <= low' && Stored(now, end + 6, AreaWords(chains, order)) {
      ChainsStand(mem, now, base, chains, order, low, low', high);
    }
  }

  lemma SlotsSame(mem: seq<Byte>, now: seq<Byte>, from: nat, to: nat, chains: seq<seq<Placed>>, base: nat, low: nat,
                  high: nat)
    requires Kept(mem, now, from, to) && PROGRAM <= from && |mem| == |now|
    requires AllChains(mem, base, chains, low, high)
    ensures |chains| == SLOTS && PROGRAM <= |mem|
    ensures forall s :: 0 <= s < SLOTS ==> Read(now, HASHTABLE + 2 * s) == Read(mem, HASHTABLE + 2 * s)
  {
    hide Kept, ChainAt, Read;
    forall s | 0 <= s < SLOTS
      ensures Read(now, HASHTABLE + 2 * s) == Read(mem, HASHTABLE + 2 * s)
    {
      KeptSlot(mem, now, from, to, s);
    }
  }

  /** The line, the end of the program and the markers spell the records out, or the chains are broken. */
  lemma AfterLine(varBlock: VariableBlock, mem: seq<Byte>, end: nat, low: nat, before: seq<CodeLine>, line: CodeLine)
    requires varBlock.block.Valid() && AllFit(before) && varBlock.block.lines == before + [line]
    requires end == PROGRAM + 2 * |Area(before)| && line.words != [] && Fits(line)
    requires varBlock.block.End() == end + LineSize(line)
    requires varBlock.block.Low() == varBlock.block.base + varBlock.block.End() + 6
    requires |mem| == |varBlock.block.data| && Kept(mem, varBlock.block.data, end, varBlock.block.End() + 6)
    requires low <= varBlock.block.High() - varBlock.block.base
    requires AllChains(mem, varBlock.block.base, varBlock.chains, low, varBlock.block.High() - varBlock.block.base)
    requires PackedIn(varBlock.chains, varBlock.order, varBlock.block.base + end + 6, varBlock.block.base + low)
    ensures |varBlock.chains| == SLOTS && (forall p :: p in varBlock.order ==> p.name != [])
    ensures varBlock.Valid() <==> AreaWords(varBlock.chains, varBlock.order) <= Overlay(line.words)
  {
    hide BasicBlock.Valid, Area, AllFit, Fits, AllChains, PackedIn, Overlay, AreaWords, Stored, LineWords, Held,
      Rising, Read, Kept;
    var block, now, chains, order := varBlock.block, varBlock.block.data, varBlock.chains, varBlock.order;
    InOrder(block);
    LastLine(now, before, line);
    ChainsSurvive(mem, now, block.base, chains, order, end, low, block.End() + 6, block.High() - block.base);
    OverlayStored(now, end, line);
    var area, over := AreaWords(chains, order), Overlay(line.words);
    if |area| <= |over| {
      StoredPrefix(now, end + 6, area, over);
    }
  }

  lemma {:induction false} AreaBegins(chains: seq<seq<Placed>>, order: seq<Placed>)
    requires |chains| == SLOTS && AllWhole(order) && order != [] && order[0].name != []
    ensures |AreaWords(chains, order)| >= 2
    ensures AreaWords(chains, order)[0] == LinkOf(chains[Slot(order[0])], order[0])
    ensures AreaWords(chains, order)[1] == order[0].id
    decreases |order|
  {
    hide LinkOf, Slot;
    if |order| > 1 {
      AreaBegins(chains, order[..|order| - 1]);
    } else {
      assert order[..0] == [] && AreaWords(chains, order) == [] + HungWords(chains, order[0]);
    }
  }

  /** Nothing comes after the oldest record in its chain. */
  lemma OldestLast(mem: seq<Byte>, base: nat, chains: seq<seq<Placed>>, order: seq<Placed>, from: nat,
                   low: nat, high: nat)
    requires AllChains(mem, base, chains, low, high) && PackedIn(chains, order, base + from, base + low)
    requires low <= high <= |mem| && order != []
    ensures |chains| == SLOTS && AllWhole(order) && order[0].name != [] && LinkOf(chains[Slot(order[0])], order[0]) == 0
  {
    hide RecordAt, Slot, SlotOf, Whole, AreaWords, RecordSize, Read;
    AllHung(mem, base, chains, order, low, high);
    LiesWithin(order, base + from, base + low);
    hide InLine;
    var p := order[0];
    var ps := chains[Slot(p)];
    var k :| 0 <= k < |ps| && ps[k] == p;
    assert ChainAt(mem, base, ps, Slot(p), low, high);
    ChainRecords(mem, base, Read(mem, HASHTABLE + 2 * Slot(p)), ps, low, high);
    LinkOfAt(ps, k);
    assert forall j :: 0 <= j < |ps| ==> ps[j] in order;
    assert k + 1 == |ps|;
  }

  /** A line can only spell records out when its second word is 0, which no keyword, number or name is, and its third
      the address of the oldest name. */
  lemma RarelySurvives(mem: seq<Byte>, base: nat, chains: seq<seq<Placed>>, order: seq<Placed>, from: nat, low: nat,
                       high: nat, words: seq<Word>)
    requires AllChains(mem, base, chains, low, high) && PackedIn(chains, order, base + from, base + low)
    requires low <= high <= |mem| && order != [] && order[0].id > 0 && words != []
    requires (forall p :: p in order ==> p.name != []) && AreaWords(chains, order) <= Overlay(words)
    ensures |words| >= 3 && words[1] == 0 && words[2] == order[0].id
  {
    hide AllChains, PackedIn, AreaWords, LinkOf, Slot;
    OldestLast(mem, base, chains, order, from, low, high);
    AreaBegins(chains, order);
    assert AreaWords(chains, order)[0] == Overlay(words)[0] && AreaWords(chains, order)[1] == Overlay(words)[1];
  }

  lemma NoEmptyLine(table: seq<Entry>, code: string)
    requires TableReadable(table) && Strip(code) != "" && LexAll(table, code).Good? &&
             AllLegal(table, LexAll(table, code).items)
    ensures Words(table, LexAll(table, code).items) != []
  {
    hide Legal, ItemWords;
    var items := LexAll(table, code).items;
    assert items != [];
    LegalTail(table, items);
    WordsSplit(table, items);
  }

  /** Code after variables. As the imports set their flag on the variables, the line is accepted or refused as if there
      were none; and when it is accepted, the chains are still whole exactly when the words of the line and what
      follows it happen to spell out all the records, which they have overwritten or overrun. */
  method CodeAfterVariables(varBlock: VariableBlock, code: string, number: int) returns (ok: bool)
    requires varBlock.Valid() && varBlock.Packed()
    requires !varBlock.block.memoryVariableCreated && Plain(code) && Strip(code) != ""
    modifies varBlock.block`data, varBlock.block`lines, varBlock.block`lastProgramLineNumber, varBlock.block.tokeniser
    ensures ok == old(Accepts(varBlock.block, code, number, 0))
    ensures ok ==> var words := WordsOf(varBlock.block.tokeniser.tokens, code);
                   && words != [] && varBlock.block.Valid()
                   && |varBlock.chains| == SLOTS && (forall p :: p in varBlock.order ==> p.name != [])
                   && (varBlock.Valid() <==> AreaWords(varBlock.chains, varBlock.order) <= Overlay(words))
  {
    hide BasicBlock.Valid, AllChains, LexAll, Words, AllLegal, Held, AllFit, Rising, Kept, TableReadable, Plain,
      Strip, Area, Overlay, AreaWords, PackedIn, Read, LineWords, Fits;
    InOrder(varBlock.block);
    var block := varBlock.block;
    ghost var mem, end, low, lines := block.data, block.End(), block.Low() - block.base, block.lines;
    ok := block.AddBASICLine(code, number);
    if ok {
      NoEmptyLine(block.tokeniser.tokens, code);
      InOrder(block);
      KeptLength(mem, block.data, end, block.End() + 6);
      LastFits(block.lines, |lines|);
      AfterLine(varBlock, mem, end, low, lines, block.lines[|lines|]);
    }
  }

  /** Any list of variables, and then a line of code. */
  method ImportsThenCode(varBlock: VariableBlock, vs: seq<Var>, code: string, number: int)
    returns (imported: bool, ok: bool)
    requires varBlock.Valid() && varBlock.Packed() && forall i :: 0 <= i < |vs| ==> Nameable(vs[i])
    requires !varBlock.block.memoryVariableCreated && Plain(code) && Strip(code) != ""
    modifies varBlock`chains, varBlock`order, varBlock.block`data, varBlock.block`lines,
      varBlock.block`lastProgramLineNumber, varBlock.block.tokeniser
    ensures !varBlock.block.memoryVariableCreated
    ensures var table := varBlock.block.tokeniser.tokens;
            && imported == (Bytes(table, vs) == 0 ||
                            Bytes(table, vs) + SPARE < old(varBlock.block.High() - varBlock.block.Low()))
            && ok == (imported && old(Accepts(varBlock.block, code, number, TopBytes(table, vs))))
    ensures ok ==> var words := WordsOf(varBlock.block.tokeniser.tokens, code);
                   && words != [] && varBlock.block.Valid()
                   && |varBlock.chains| == SLOTS && (forall p :: p in varBlock.order ==> p.name != [])
                   && (varBlock.Valid() <==> AreaWords(varBlock.chains, varBlock.order) <= Overlay(words))
  {
    hide BasicBlock.Valid, VariableBlock.Valid, VariableBlock.Packed, Nameable, ChainsAre, AllNamedBy, LettersAre,
      Bytes, TopBytes, LexAll, WordsOf, Plain, Strip, Overlay, AreaWords, AllFit, Area, TableFits, TableReadable,
      Read;
    InBounds(varBlock);
    ghost var free := varBlock.block.High();
    imported := ImportAll(varBlock, vs);
    ok := false;
    if imported {
      ok := CodeAfterVariables(varBlock, code, number);
    }
  }

  lemma LastFits(lines: seq<CodeLine>, i: nat)
    requires AllFit(lines) && i < |lines|
    ensures Fits(lines[i])
  {
  }

  /** The words of a text that can be tokenised. */
  function WordsOf(table: seq<Entry>, code: string): seq<Word>
    requires TableReadable(table)
  {
    var line := LexAll(table, code);
    if line.Good? && AllLegal(table, line.items) then Words(table, line.items) else []
  }

  /** The line's number is in order, its text can be tokenised and there is room for it above the program
      and below the high memory left when so many bytes of it are taken. */
  ghost predicate Accepts(block: BasicBlock, code: string, number: int, taken: nat)
    reads block
    requires block.Valid()
  {
    && block.lastProgramLineNumber < block.NumberFor(number) <= MAX_NUMBER
    && LexAll(block.tokeniser.tokens, code).Good?
    && block.base + block.End() + 2 * |WordsOf(block.tokeniser.tokens, code)| + 12 + SPARE < block.High() - taken
  }

  // ----- one keyword, one variable, one line

  const SMALL_TABLE := [Entry("end", 15)]

  function Answer(): Var {
    Var([1, 28], false, Longs([42]))
  }

  lemma SmallTable()
    ensures TableReadable(SMALL_TABLE)
  {
    var name := SMALL_TABLE[0].name;
    assert name == "end" && Lower(name) == name;
    assert forall i :: 0 <= i < 3 ==> IsAlnum(name[i]);
    assert AlnumRun(name) == 3 && WholeRun(name) == 3;
  }

  lemma EndReads()
    requires TableReadable(SMALL_TABLE)
    ensures LexAll(SMALL_TABLE, "END") == Good([Keyword(0)]) && Plain("END") && Strip("END") == "END"
    ensures AllLegal(SMALL_TABLE, [Keyword(0)]) && |Words(SMALL_TABLE, [Keyword(0)])| == 1
  {
    hide TableReadable, LexAll, Strip, Words;
    var items := [Keyword(0)];
    assert Upper("end") == "END" && Core(SMALL_TABLE, items[0]) == "END";
    assert Row(SMALL_TABLE, items) == "END" + "" == "END";
    EndWords();
    RowReads(SMALL_TABLE, items);
    BareStrip("END");
  }

  lemma EndWords()
    ensures TableFits(SMALL_TABLE) && AllLegal(SMALL_TABLE, [Keyword(0)]) && |Words(SMALL_TABLE, [Keyword(0)])| == 1
  {
    assert [Keyword(0)][1..] == [] && Words(SMALL_TABLE, [Keyword(0)]) == ItemWords(SMALL_TABLE, Keyword(0)) + [];
  }

  lemma AnswerNameable()
    ensures Nameable(Answer()) && !IsFast(Answer()) && RecordSize(Answer()) == 8
    ensures TableFits(SMALL_TABLE) && |IdWords(SMALL_TABLE, Answer())| == 1
    ensures HighBytes(IdWords(SMALL_TABLE, Answer()), Answer()) == 2
  {
    assert |NameText(Answer())| == 2;
    assert FindExact(SMALL_TABLE, NameText(Answer()), 1).Missing?;
  }

  lemma EndAccepted(block: BasicBlock)
    requires block.Valid() && block.tokeniser.tokens == SMALL_TABLE && TableReadable(SMALL_TABLE)
    requires block.lastProgramLineNumber == 0 && block.base == 0 && block.End() == PROGRAM && block.High() == 0x4000 - 2
    ensures Accepts(block, "END", 0, 0) && |WordsOf(SMALL_TABLE, "END")| == 1
  {
    hide BasicBlock.Valid, LexAll, Words;
    EndReads();
  }

  /** A table of one keyword and a new block for it. */
  method NewBlock() returns (varBlock: VariableBlock)
    ensures fresh(varBlock) && fresh(varBlock.block) && fresh(varBlock.block.tokeniser) &&
            varBlock.block.tokeniser.tokens == SMALL_TABLE
    ensures varBlock.Valid() && varBlock.Packed() && varBlock.order == [] && !varBlock.block.memoryVariableCreated
    ensures varBlock.block.lastProgramLineNumber == 0 && varBlock.block.base == 0 && varBlock.block.End() == PROGRAM
    ensures varBlock.block.Low() == PROGRAM + 6 && varBlock.block.High() == 0x4000
  {
    hide BasicBlock.Valid, VariableBlock.Valid, VariableBlock.Packed, TableReadable, Read;
    SmallTable();
    var tokeniser := new Tokeniser(SMALL_TABLE);
    var block := new BasicBlock(0, 0x4000, tokeniser);
    InOrder(block);
    assert Area([]) == [];
    varBlock := new VariableBlock(block);
  }

  /** In a new block, a1 = 42 is imported and then the line END is added: it is accepted, the program is in
      order, and the variable is lost. */
  method CodeDestroysVariable() returns (varBlock: VariableBlock, imported: bool, ok: bool)
    ensures imported && ok && varBlock.block.Valid() && !varBlock.Valid()
  {
    hide BasicBlock.Valid, AllChains, VariableBlock.Packed, TableReadable, RecordSize, HighBytes, IsFast, Accepts,
      WordsOf, Overlay, AreaWords, PackedIn, Plain, Strip, AllFit, Area, IdWords, Read, Nameable, ItemWords,
      NameWords, LexAll;
    varBlock := NewBlock();
    SmallTable();
    EndReads();
    AnswerNameable();
    var variable := new Variable(Answer());
    ghost var p;
    imported, p := variable.ImportVariable(varBlock);
    InOrder(varBlock.block);
    EndAccepted(varBlock.block);
    ghost var words, mem, chains, order := WordsOf(SMALL_TABLE, "END"), varBlock.block.data, varBlock.chains,
      varBlock.order;
    ghost var low, high := varBlock.block.Low(), varBlock.block.High();
    assert order == [p] && PackedIn(chains, order, PROGRAM + 6, low) && AllChains(mem, 0, chains, low, high) by {
      Unpacked(varBlock);
    }
    ok := CodeAfterVariables(varBlock, "END", 0);
    if AreaWords(chains, order) <= Overlay(words) {
      RarelySurvives(mem, 0, chains, order, PROGRAM + 6, low, high, words);
    }
  }

  lemma Unpacked(varBlock: VariableBlock)
    requires varBlock.Valid() && AllFit(varBlock.block.lines) && PROGRAM <= |varBlock.block.data| && varBlock.Packed()
    ensures PackedIn(varBlock.chains, varBlock.order, varBlock.block.base + varBlock.block.End() + 6,
            varBlock.block.Low())
    ensures AllChains(varBlock.block.data, varBlock.block.base, varBlock.chains,
                      varBlock.block.Low() - varBlock.block.base, varBlock.block.High() - varBlock.block.base)
  {
  }
}
