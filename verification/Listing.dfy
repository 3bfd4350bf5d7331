/** Printing a tokenised line from memory, and the whole journey of a line of text: tokenised, stored,
    printed and tokenised again (scripts/dump_export.py, scripts/tokeniser.py). */
module Listing {
  import opened Primitives
  import opened Chars
  import opened Tokens
  import opened Lexer

  datatype Printed = Fault | Shown(text: string)

  function Before(s: string, rest: Printed): Printed {
    if rest.Fault? then Fault else Shown(s + rest.text)
  }

  /** What one word prints, where the next is, and the constant shift left for it. */
  datatype Piece = NoPiece | Piece(text: string, next: nat, shift: nat)

  function DecodeC(c: nat): string {
    if 1 <= c <= 26 then [(96 + c) as char] else if 27 <= c <= 36 then [(c - 27 + 48) as char] else ""
  }

  /** The table entry a keyword word names; number 0 counts from the end and so names the last. */
  function EntryAt(table: seq<Entry>, id: nat): (f: Found)
    ensures f.At? ==> f.k < |table|
    ensures 1 <= id <= |table| ==> f == At(id - 1)
  {
    if table == [] || id > |table| then Missing else At(if id == 0 then |table| - 1 else id - 1)
  }

  function NamePiece(token: Word): string {
    DecodeC(token % 0x800 % 45) + DecodeC(token % 0x800 / 45)
    + if token / 0x800 % 2 == 1 then "" else Suffix(token / 0x2000 % 2 == 1, token / 0x1000 % 2 == 1)
  }

  function PieceAt(table: seq<Entry>, mem: seq<Byte>, pos: nat, shift: nat): (p: Piece)
    requires pos + 1 < |mem| && Read(mem, pos) != 0
    ensures p.Piece? ==> p.next > pos
  {
    var token := Read(mem, pos);
    if token < 0x100 then TextPiece(mem, pos, token, shift)
    else if token < 0x2000 then Piece("", pos + 2, token % 0x1000)
    else if token < 0x4000 then KeywordPiece(table, pos, token, shift)
    else if token < 0xc000 then Piece(Digits(token - 0x4000 + shift * SHIFT), pos + 2, 0)
    else Piece(NamePiece(token), pos + 2, shift)
  }

  function TextPiece(mem: seq<Byte>, pos: nat, token: Word, shift: nat): Piece {
    if pos + 2 >= |mem| || pos + 3 + mem[pos + 2] > |mem| then NoPiece
    else Piece(['"'] + TextOf(mem[pos + 3..pos + 3 + mem[pos + 2]]) + ['"'], pos + token, shift)
  }

  function KeywordPiece(table: seq<Entry>, pos: nat, token: Word, shift: nat): Piece {
    var f := EntryAt(table, token % 0x200);
    if f.Missing? then NoPiece else Piece(" " + Upper(table[f.k].name) + " ", pos + 2, shift)
  }

  /** The text of a line in memory up to its zero word; nothing if the walk leaves the memory or the table. */
  function Print(table: seq<Entry>, mem: seq<Byte>, pos: nat, shift: nat): Printed
    decreases |mem| - pos
  {
    if pos + 1 >= |mem| then Fault
    else if Read(mem, pos) == 0 then Shown("")
    else
      var p := PieceAt(table, mem, pos, shift);
      if p.NoPiece? then Fault else Before(p.text, Print(table, mem, p.next, p.shift))
  }

  // ----- a whole program

  const PROGRAM := 0x200

  datatype Decoded = Lost | Decoded(code: seq<string>)

  /** Follows the links from line to line: a line is its size, its number and its words. */
  function DecodeFrom(table: seq<Entry>, mem: seq<Byte>, pos: nat): Decoded
    decreases |mem| - pos
  {
    if pos + 1 >= |mem| then Lost
    else if Read(mem, pos) == 0 then Decoded([])
    else if pos + 3 >= |mem| then Lost
    else
      var line := Print(table, mem, pos + 4, 0);
      if line.Fault? then Lost
      else FirstLine(Read(mem, pos + 2), line.text, DecodeFrom(table, mem, pos + Read(mem, pos)))
  }

  function LineText(number: nat, text: string): string {
    Digits(number) + " " + Strip(text)
  }

  function FirstLine(number: nat, text: string, rest: Decoded): Decoded {
    if rest.Lost? then Lost else Decoded([LineText(number, text)] + rest.code)
  }

  function AfterLines(code: seq<string>, rest: Decoded): Decoded {
    if rest.Lost? then Lost else Decoded(code + rest.code)
  }

  lemma OneMoreLine(code: seq<string>, number: nat, text: string, rest: Decoded)
    ensures AfterLines(code, FirstLine(number, text, rest)) == AfterLines(code + [LineText(number, text)], rest)
  {
    if rest.Decoded? {
      assert code + ([LineText(number, text)] + rest.code) == code + [LineText(number, text)] + rest.code;
    }
  }

  lemma BeforeTwice(a: string, b: string, p: Printed)
    ensures Before(a, Before(b, p)) == Before(a + b, p)
  {
    if p.Shown? {
      assert a + (b + p.text) == a + b + p.text;
    }
  }

  class DumpFile {
    const binary: seq<Byte>
    const tokens: seq<Entry>
    var constantShift: nat

    constructor (binary: seq<Byte>, tokens: seq<Entry>)
      ensures this.binary == binary && this.tokens == tokens
    {
      this.binary, this.tokens, constantShift := binary, tokens, 0;
    }

    method ReadString(pos: nat) returns (r: Printed)
      ensures r == if pos >= |binary| || pos + 1 + binary[pos] > |binary| then Fault
              else Shown(TextOf(binary[pos + 1..pos + 1 + binary[pos]]))
    {
      if pos >= |binary| {
        return Fault;
      }
      var s, i := "", 0;
      while i < binary[pos]
        invariant 0 <= i <= binary[pos] && (i > 0 ==> pos + 1 + i <= |binary|)
        invariant pos + 1 + i <= |binary| && s == TextOf(binary[pos + 1..pos + 1 + i])
      {
        if pos + 1 + i >= |binary| {
          return Fault;
        }
        s := s + [binary[pos + 1 + i] as char];
        i := i + 1;
      }
      r := Shown(s);
    }

    method DeTokenise(start: nat) returns (r: Printed)
      modifies this`constantShift
      ensures r == Print(tokens, binary, start, 0)
    {
      var s, pos := "", start;
      constantShift := 0;
      while true
        invariant Print(tokens, binary, start, 0) == Before(s, Print(tokens, binary, pos, constantShift))
        decreases |binary| - pos
      {
        if pos + 1 >= |binary| {
          return Fault;
        }
        if Read(binary, pos) == 0 {
          assert s + "" == s;
          return Shown(s);
        }
        ghost var was, before, shift := pos, s, constantShift;
        ghost var piece := PieceAt(tokens, binary, pos, shift);
        var token := Read(binary, pos);
        pos := pos + 2;
        if token < 0x100 {
          var t := ReadString(pos);
          if t.Fault? {
            return Fault;
          }
          s := s + (['"'] + t.text + ['"']);
          pos := pos + token - 2;
        } else if token < 0x2000 {
          constantShift := token % 0x1000;
          assert s + "" == s;
        } else if token < 0x4000 {
          var f := EntryAt(tokens, token % 0x200);
          if f.Missing? {
            return Fault;
          }
          s := s + (" " + Upper(tokens[f.k].name) + " ");
        } else if token < 0xc000 {
          s := s + Digits(token - 0x4000 + constantShift * SHIFT);
          constantShift := 0;
        } else {
          s := s + NamePiece(token);
        }
        assert piece.Piece? && pos == piece.next && constantShift == piece.shift && s == before + piece.text;
        BeforeTwice(before, piece.text, Print(tokens, binary, pos, constantShift));
      }
    }

    /** The numbered lines of the program; a walk or a line that leaves the dump loses it all. */
    method Decode() returns (r: Decoded)
      modifies this`constantShift
      ensures r == DecodeFrom(tokens, binary, PROGRAM)
    {
      hide Print, LineText;
      var pos, code := PROGRAM, [];
      while true
        invariant DecodeFrom(tokens, binary, PROGRAM) == AfterLines(code, DecodeFrom(tokens, binary, pos))
        decreases |binary| - pos
      {
        if pos + 1 >= |binary| {
          return Lost;
        }
        if Read(binary, pos) == 0 {
          assert code + [] == code;
          return Decoded(code);
        }
        if pos + 3 >= |binary| {
          return Lost;
        }
        var lineNumber := Read(binary, pos + 2);
        var line := DeTokenise(pos + 4);
        if line.Fault? {
          return Lost;
        }
        OneMoreLine(code, lineNumber, line.text, DecodeFrom(tokens, binary, pos + Read(binary, pos)));
        code := code + [LineText(lineNumber, line.text)];
        pos := Read(binary, pos) + pos;
      }
    }
  }

  // ----- what a stored line prints

  lemma OnePiece(table: seq<Entry>, mem: seq<Byte>, pos: nat, shift: nat, p: Piece)
    requires pos + 1 < |mem| && Read(mem, pos) != 0 && p == PieceAt(table, mem, pos, shift) && p.Piece?
    ensures Print(table, mem, pos, shift) == Before(p.text, Print(table, mem, p.next, p.shift))
  {
  }

  lemma CharsDecode(chars: seq<nat>)
    requires Letters(chars) && 1 <= |chars| <= 2
    ensures CodeText(chars) == DecodeC(chars[0]) + DecodeC(if |chars| == 1 then 0 else chars[1])
  {
  }

  lemma CodeTextSplit(chars: seq<nat>)
    requires Letters(chars) && |chars| > 2
    ensures CodeText(chars) == CodeText(chars[..2]) + CodeText(chars[2..])
  {
  }

  lemma NameWordPrints(table: seq<Entry>, mem: seq<Byte>, pos: nat, chars: seq<nat>, dollar: bool, paren: bool)
    requires chars != [] && Letters(chars) && Stored(mem, pos, NameWords(chars, dollar, paren))
    ensures var more := |chars| > 2; var head := if more then chars[..2] else chars;
            Print(table, mem, pos, 0) ==
              Before(CodeText(head) + if more then "" else Suffix(dollar, paren), Print(table, mem, pos + 2, 0))
  {
    hide Print;
    var ws := NameWords(chars, dollar, paren);
    var second := if |chars| == 1 then 0 else chars[1];
    MarksRead(dollar, paren);
    WordOfName(chars[0], second, Marks(dollar, paren), |chars| > 2, ws[0]);
    CharsDecode(if |chars| > 2 then chars[..2] else chars);
    assert Read(mem, pos + 2 * 0) == ws[0];
    OnePiece(table, mem, pos, 0, PieceAt(table, mem, pos, 0));
  }

  lemma {:induction false} NamePrints(table: seq<Entry>, mem: seq<Byte>, pos: nat, chars: seq<nat>,
                                      dollar: bool, paren: bool, ws: seq<Word>)
    requires chars != [] && Letters(chars) && ws == NameWords(chars, dollar, paren) && Stored(mem, pos, ws)
    ensures Print(table, mem, pos, 0) ==
            Before(CodeText(chars) + Suffix(dollar, paren), Print(table, mem, pos + 2 * |ws|, 0))
    decreases |chars|
  {
    hide Print;
    NameWordPrints(table, mem, pos, chars, dollar, paren);
    if |chars| > 2 {
      var head, tail, marks := CodeText(chars[..2]), CodeText(chars[2..]), Suffix(dollar, paren);
      assert ws[1..] == NameWords(chars[2..], dollar, paren) && Stored(mem, pos + 2, ws[1..]) by {
        assert ws == [ws[0]] + ws[1..];
        StoredSplit(mem, pos, [ws[0]], ws[1..]);
      }
      NamePrints(table, mem, pos + 2, chars[2..], dollar, paren, ws[1..]);
      BeforeTwice(head + "", tail + marks, Print(table, mem, pos + 2 * |ws|, 0));
      Joined(head, tail, marks);
      CodeTextSplit(chars);
    }
  }

  lemma Joined(a: string, b: string, c: string)
    ensures (a + "") + (b + c) == (a + b) + c
  {
  }

  lemma SmallPrints(table: seq<Entry>, mem: seq<Byte>, pos: nat, n: nat, shift: nat)
    requires n < SHIFT && pos + 1 < |mem| && Read(mem, pos) == n + 0x4000
    ensures Print(table, mem, pos, shift) == Before(Digits(n + shift * SHIFT), Print(table, mem, pos + 2, 0))
  {
    OnePiece(table, mem, pos, shift, Piece(Digits(n + shift * SHIFT), pos + 2, 0));
  }

  lemma ShiftPrints(table: seq<Entry>, mem: seq<Byte>, pos: nat, high: nat)
    requires high < 0x1000 && pos + 1 < |mem| && Read(mem, pos) == high + 0x1000
    ensures Print(table, mem, pos, 0) == Before("", Print(table, mem, pos + 2, high))
  {
    OnePiece(table, mem, pos, 0, Piece("", pos + 2, high));
  }

  lemma ConstantPrints(table: seq<Entry>, mem: seq<Byte>, pos: nat, n: nat, ws: seq<Word>)
    requires TableFits(table) && n < MAX_CONSTANT && ws == ItemWords(table, Constant(n)) && Stored(mem, pos, ws)
    ensures Print(table, mem, pos, 0) == Before(Digits(n), Print(table, mem, pos + 2 * |ws|, 0))
  {
    hide Read;
    hide Print;
    var low, high := n % SHIFT, n / SHIFT;
    assert Read(mem, pos + 2 * 0) == ws[0];
    if n < SHIFT {
      SmallPrints(table, mem, pos, low, 0);
    } else {
      assert Read(mem, pos + 2 * 1) == ws[1];
      ShiftPrints(table, mem, pos, high);
      SmallPrints(table, mem, pos + 2, low, high);
      BeforeTwice("", Digits(n), Print(table, mem, pos + 4, 0));
      Unpadded(Digits(n));
    }
  }

  lemma TextPrints(table: seq<Entry>, mem: seq<Byte>, pos: nat, bytes: seq<Byte>, ws: seq<Word>)
    requires |bytes| < MAX_STRING && ws == TextWords(bytes) && Stored(mem, pos, ws)
    ensures Print(table, mem, pos, 0) == Before(['"'] + TextOf(bytes) + ['"'], Print(table, mem, pos + 2 * |ws|, 0))
  {
    hide Print;
    TextParses(mem, pos, bytes);
    OnePiece(table, mem, pos, 0, PieceAt(table, mem, pos, 0));
  }

  lemma KeywordPrints(table: seq<Entry>, mem: seq<Byte>, pos: nat, k: nat, ws: seq<Word>)
    requires TableFits(table) && k < |table| && ws == [KeywordWord(table, k)] && Stored(mem, pos, ws)
    ensures Print(table, mem, pos, 0) == Before(" " + Upper(table[k].name) + " ", Print(table, mem, pos + 2 * |ws|, 0))
  {
    assert Read(mem, pos + 2 * 0) == ws[0];
    OnePiece(table, mem, pos, 0, PieceAt(table, mem, pos, 0));
  }

  /** A stored item prints as its text and leaves no constant shift behind. */
  lemma ItemPrints(table: seq<Entry>, mem: seq<Byte>, pos: nat, item: Item, ws: seq<Word>, text: string)
    requires TableFits(table) && Legal(table, item) && ws == ItemWords(table, item) &&
             text == Render(table, item) && Stored(mem, pos, ws)
    ensures Print(table, mem, pos, 0) == Before(text, Print(table, mem, pos + 2 * |ws|, 0))
  {
    Unpadded(Core(table, item));
    match item
    case Keyword(k) => KeywordPrints(table, mem, pos, k, ws);
    case Constant(n) => ConstantPrints(table, mem, pos, n, ws);
    case Name(chars, dollar, paren) => NamePrints(table, mem, pos, chars, dollar, paren, ws);
    case Text(bytes) => TextPrints(table, mem, pos, bytes, ws);
  }

  lemma Unpadded(s: string)
    ensures "" + s + "" == s
  {
  }

  lemma FirstPrints(table: seq<Entry>, mem: seq<Byte>, pos: nat, items: seq<Item>) returns (next: nat)
    requires TableFits(table) && items != [] && AllLegal(table, items) && StoredLine(mem, pos, Words(table, items))
    ensures AllLegal(table, items[1..]) && StoredLine(mem, next, Words(table, items[1..]))
    ensures Print(table, mem, pos, 0) == Before(Render(table, items[0]), Print(table, mem, next, 0))
  {
    hide *;
    LegalTail(table, items);
    WordsSplit(table, items);
    var first, rest := ItemWords(table, items[0]), Words(table, items[1..]);
    next := pos + 2 * |first|;
    assert Stored(mem, pos, first) && StoredLine(mem, next, rest) by {
      StoredLineSplit(mem, pos, first, rest);
    }
    ItemPrints(table, mem, pos, items[0], first, Render(table, items[0]));
  }

  /** A stored line prints as the texts of its items one after another. */
  lemma {:induction false} LinePrints(table: seq<Entry>, mem: seq<Byte>, pos: nat, items: seq<Item>)
    requires TableFits(table) && AllLegal(table, items) && StoredLine(mem, pos, Words(table, items))
    ensures Print(table, mem, pos, 0) == Shown(RenderAll(table, items))
    decreases |items|
  {
    if items == [] {
      assert Read(mem, pos) == 0;
    } else {
      var next := FirstPrints(table, mem, pos, items);
      LinePrints(table, mem, next, items[1..]);
    }
  }
}
