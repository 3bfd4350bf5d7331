/** The token words of a BASIC line: how each kind of item is written as 16-bit words, and how they
    are read back from memory (scripts/tokeniser.py, scripts/dump_export.py, scripts/gentokens.py). */
module Tokens {
  import opened Primitives

  const SHIFT := 32768
  const MAX_CONSTANT := 0x800_0000
  const MAX_STRING := 252

  /** An entry of the token table; its place in the table is its number less one. */
  datatype Entry = Entry(name: string, group: nat)

  /** Characters of a name are 1 to 26 for letters and 27 to 36 for digits. */
  datatype Item =
    | Keyword(k: nat)
    | Constant(n: nat)
    | Name(chars: seq<nat>, dollar: bool, paren: bool)
    | Text(bytes: seq<Byte>)

  /** Groups fit four bits and numbers nine. */
  predicate TableFits(table: seq<Entry>) {
    |table| < 0x200 && forall k :: 0 <= k < |table| ==> table[k].group < 16
  }

  predicate Legal(table: seq<Entry>, item: Item) {
    match item
    case Keyword(k) => k < |table|
    case Constant(n) => n < MAX_CONSTANT
    case Name(chars, _, _) => chars != [] && forall i :: 0 <= i < |chars| ==> 1 <= chars[i] <= 36
    case Text(bytes) => |bytes| < MAX_STRING
  }

  predicate AllLegal(table: seq<Entry>, items: seq<Item>) {
    forall i :: 0 <= i < |items| ==> Legal(table, items[i])
  }

  // ----- writing

  function KeywordWord(table: seq<Entry>, k: nat): (w: Word)
    requires TableFits(table) && k < |table|
    ensures 0x2000 <= w < 0x4000 && w % 0x200 == k + 1 && w / 0x200 % 16 == table[k].group
  {
    k + 1 + table[k].group * 0x200 + 0x2000
  }

  function Marks(dollar: bool, paren: bool): Word {
    (if paren then 0x1000 else 0) + if dollar then 0x2000 else 0
  }

  predicate Letters(chars: seq<nat>) {
    forall i :: 0 <= i < |chars| ==> 1 <= chars[i] <= 36
  }

  /** Two characters a word, padded with zero, and a continuation mark on all but the last. */
  function NameWords(chars: seq<nat>, dollar: bool, paren: bool): (ws: seq<Word>)
    requires chars != [] && Letters(chars)
    ensures ws != []
    decreases |chars|
  {
    var second := if |chars| == 1 then 0 else chars[1];
    var word := 0xc000 + chars[0] + 45 * second + Marks(dollar, paren);
    if |chars| <= 2 then [word] else [word + 0x800] + NameWords(chars[2..], dollar, paren)
  }

  /** The length byte, the bytes, and a zero to make the number even. */
  function Padded(bytes: seq<Byte>): (p: seq<Byte>)
    requires |bytes| < 0x100
    ensures |p| == |bytes| / 2 * 2 + 2 && p[0] == |bytes|
    ensures forall i :: 0 <= i < |bytes| ==> p[1 + i] == bytes[i]
  {
    var p: seq<Byte> := [|bytes|] + bytes;
    if |bytes| % 2 == 0 then p + [0] else p
  }

  function Pair(p: seq<Byte>, i: nat): Word
    requires 2 * i + 1 < |p|
  {
    p[2 * i] + 0x100 * (p[2 * i + 1] as int)
  }

  function Pairs(p: seq<Byte>): (ws: seq<Word>)
    ensures |ws| == |p| / 2 && forall i :: 0 <= i < |ws| ==> ws[i] == Pair(p, i)
  {
    seq(|p| / 2, i requires 0 <= i < |p| / 2 => Pair(p, i))
  }

  /** A header with the size of the whole object in bytes, then the data. */
  function TextWords(bytes: seq<Byte>): (ws: seq<Word>)
    requires |bytes| < MAX_STRING
    ensures ws != []
  {
    var p := Padded(bytes);
    [|p| + 2] + Pairs(p)
  }

  function ItemWords(table: seq<Entry>, item: Item): (ws: seq<Word>)
    requires TableFits(table) && Legal(table, item)
    ensures ws != []
  {
    match item
    case Keyword(k) => [KeywordWord(table, k)]
    case Constant(n) =>
      (if n >= SHIFT then [n / SHIFT + 0x1000] else []) + [n % SHIFT + 0x4000]
    case Name(chars, dollar, paren) => NameWords(chars, dollar, paren)
    case Text(bytes) => TextWords(bytes)
  }

  function Words(table: seq<Entry>, items: seq<Item>): seq<Word>
    requires TableFits(table) && AllLegal(table, items)
  {
    if items == [] then [] else ItemWords(table, items[0]) + Words(table, items[1..])
  }

  // ----- what the words look like

  /** A constant below 32768 is one word from 0x4000 up, a larger one has the rest in a word from 0x1000 up. */
  lemma ConstantLayout(table: seq<Entry>, n: nat, ws: seq<Word>)
    requires TableFits(table) && n < 4096 * 32768 && ws == ItemWords(table, Constant(n))
    ensures |ws| == (if n < 32768 then 1 else 2) && 0x4000 <= ws[|ws| - 1] < 0xc000
    ensures |ws| == 2 ==> 0x1000 < ws[0] < 0x2000
    ensures n == (ws[|ws| - 1] as int) - 0x4000 + 32768 * if |ws| == 2 then (ws[0] as int) - 0x1000 else 0
  {
  }

  /** A word of a name: from 0xc000 up, two characters in base 45, then whether more follow, "(" and "$". */
  lemma {:induction false} NameLayout(chars: seq<nat>, dollar: bool, paren: bool, i: nat)
    requires chars != [] && Letters(chars) && i < |NameWords(chars, dollar, paren)|
    ensures 2 * i < |chars| <= 2 * |NameWords(chars, dollar, paren)|
    ensures var w := NameWords(chars, dollar, paren)[i];
            && w >= 0xc000 && w % 0x800 % 45 == chars[2 * i]
            && w % 0x800 / 45 == (if 2 * i + 1 < |chars| then chars[2 * i + 1] else 0)
            && (w / 0x800 % 2 == 1 <==> i + 1 < |NameWords(chars, dollar, paren)|)
            && (w / 0x1000 % 2 == 1 <==> paren) && (w / 0x2000 % 2 == 1 <==> dollar)
    decreases |chars|
  {
    var ws := NameWords(chars, dollar, paren);
    if i == 0 {
      var second := if |chars| == 1 then 0 else chars[1];
      MarksRead(dollar, paren);
      WordOfName(chars[0], second, Marks(dollar, paren), |chars| > 2, ws[0]);
      if |chars| > 2 {
        NameLayout(chars[2..], dollar, paren, 0);
      }
    } else {
      NameLayout(chars[2..], dollar, paren, i - 1);
    }
  }

  /** A string begins with the length of the whole in bytes, then come its own length and its bytes. */
  lemma TextLayout(bytes: seq<Byte>, i: nat)
    requires |bytes| < 252 && i < |bytes|
    ensures var ws := TextWords(bytes);
            && ws[0] == 2 * |ws| < 0x100 && ws[1] % 0x100 == |bytes|
            && (if i % 2 == 0 then ws[1 + i / 2] / 0x100 else ws[1 + (i + 1) / 2] % 0x100) == bytes[i]
  {
    hide Padded, Pair;
    var p, j := Padded(bytes), (i + 1) / 2;
    assert TextWords(bytes)[1 + j] == Pair(p, j) && TextWords(bytes)[1] == Pair(p, 0);
    hide TextWords;
    PairParts(p, j);
    PairParts(p, 0);
    assert i == if i % 2 == 0 then 2 * j else 2 * j - 1;
    assert p[1 + i] == bytes[i];
  }

  lemma PairParts(p: seq<Byte>, i: nat)
    requires 2 * i + 1 < |p|
    ensures Pair(p, i) % 0x100 == p[2 * i] && Pair(p, i) / 0x100 == p[2 * i + 1]
  {
  }

  // ----- memory

  function Read(mem: seq<Byte>, addr: nat): Word
    requires addr + 1 < |mem|
  {
    mem[addr] + (mem[addr + 1] as int) * 0x100
  }

  /** These words lie in memory from an address, low byte first. */
  ghost predicate Stored(mem: seq<Byte>, addr: nat, ws: seq<Word>) {
    addr + 2 * |ws| <= |mem| && forall i :: 0 <= i < |ws| ==> Read(mem, addr + 2 * i) == ws[i]
  }

  /** These words, and a zero word after them. */
  ghost predicate StoredLine(mem: seq<Byte>, addr: nat, ws: seq<Word>) {
    Stored(mem, addr, ws) && addr + 2 * |ws| + 1 < |mem| && Read(mem, addr + 2 * |ws|) == 0
  }

  lemma StoredSplit(mem: seq<Byte>, addr: nat, a: seq<Word>, b: seq<Word>)
    ensures Stored(mem, addr, a + b) <==> Stored(mem, addr, a) && Stored(mem, addr + 2 * |a|, b)
  {
    if Stored(mem, addr, a + b) {
      forall i | 0 <= i < |a|
        ensures Read(mem, addr + 2 * i) == a[i]
      {
        assert (a + b)[i] == a[i];
      }
      forall i | 0 <= i < |b|
        ensures Read(mem, addr + 2 * |a| + 2 * i) == b[i]
      {
        assert (a + b)[|a| + i] == b[i];
      }
    }
  }

  // ----- reading items back

  /** One item and where the next begins; nothing at the terminator, at the end of memory, or where
      no item can start. */
  datatype Parsed = Nothing | Parsed(item: Item, next: nat)

  function NameChars(token: Word): seq<nat> {
    var n1 := token % 0x800;
    (if 1 <= n1 % 45 <= 36 then [n1 % 45] else []) + if 1 <= n1 / 45 <= 36 then [n1 / 45] else []
  }

  /** The rest of a name, as far as the continuation marks go. */
  function ParseName(mem: seq<Byte>, pos: nat, chars: seq<nat>): (r: Parsed)
    ensures r.Parsed? ==> r.next > pos
    decreases |mem| - pos
  {
    if pos + 1 >= |mem| || Read(mem, pos) < 0xc000 then Nothing
    else
      var token := Read(mem, pos);
      var more := chars + NameChars(token);
      if token / 0x800 % 2 == 1 then ParseName(mem, pos + 2, more)
      else Parsed(Name(more, token / 0x2000 % 2 == 1, token / 0x1000 % 2 == 1), pos + 2)
  }

  function ParseText(mem: seq<Byte>, pos: nat, token: Word): (r: Parsed)
    ensures r.Parsed? && token > 0 ==> r.next > pos
  {
    if pos + 2 >= |mem| || pos + 3 + mem[pos + 2] > |mem| then Nothing
    else Parsed(Text(mem[pos + 3..pos + 3 + mem[pos + 2]]), pos + token)
  }

  function ParseItem(mem: seq<Byte>, pos: nat, shift: nat): (r: Parsed)
    ensures r.Parsed? ==> r.next > pos
    decreases |mem| - pos
  {
    if pos + 1 >= |mem| then Nothing
    else
      var token := Read(mem, pos);
      if token == 0 then Nothing
      else if token < 0x100 then ParseText(mem, pos, token)
      else if token < 0x2000 then ParseItem(mem, pos + 2, token % 0x1000)
      else if token < 0x4000 then if token % 0x200 == 0 then Nothing else Parsed(Keyword(token % 0x200 - 1), pos + 2)
      else if token < 0xc000 then Parsed(Constant(token - 0x4000 + shift * SHIFT), pos + 2)
      else ParseName(mem, pos, [])
  }

  datatype Line = Line(items: seq<Item>, stop: nat)

  /** Items up to the first place where none can be read, and that place. */
  function ParseItems(mem: seq<Byte>, pos: nat): Line
    decreases |mem| - pos
  {
    match ParseItem(mem, pos, 0)
    case Nothing => Line([], pos)
    case Parsed(item, next) =>
      if next > |mem| then Line([item], next)
      else
        var rest := ParseItems(mem, next);
        Line([item] + rest.items, rest.stop)
  }

  // ----- every item decodes to itself

  lemma WordOfName(first: nat, second: nat, marks: nat, more: bool, w: nat)
    requires 1 <= first <= 36 && 0 <= second <= 36 && marks % 0x1000 == 0 && marks <= 0x3000
    requires w == 0xc000 + first + 45 * second + marks + if more then 0x800 else 0
    ensures 0xc000 <= w < 0x10000 && w % 0x800 == first + 45 * second
    ensures w / 0x800 % 2 == (if more then 1 else 0)
    ensures w / 0x2000 % 2 == marks / 0x2000 % 2 && w / 0x1000 % 2 == marks / 0x1000 % 2
    ensures (first + 45 * second) % 45 == first && (first + 45 * second) / 45 == second
  {
  }

  lemma MarksRead(dollar: bool, paren: bool)
    ensures Marks(dollar, paren) % 0x1000 == 0 && Marks(dollar, paren) <= 0x3000
    ensures (Marks(dollar, paren) / 0x2000 % 2 == 1) == dollar && (Marks(dollar, paren) / 0x1000 % 2 == 1) == paren
  {
  }

  lemma {:induction false} NameParses(mem: seq<Byte>, pos: nat, acc: seq<nat>, chars: seq<nat>, dollar: bool,
                                      paren: bool)
    requires chars != [] && Letters(chars) && Stored(mem, pos, NameWords(chars, dollar, paren))
    ensures ParseName(mem, pos, acc) ==
            Parsed(Name(acc + chars, dollar, paren), pos + 2 * |NameWords(chars, dollar, paren)|)
    decreases |chars|
  {
    var ws := NameWords(chars, dollar, paren);
    var second := if |chars| == 1 then 0 else chars[1];
    MarksRead(dollar, paren);
    WordOfName(chars[0], second, Marks(dollar, paren), |chars| > 2, ws[0]);
    assert Read(mem, pos + 2 * 0) == ws[0];
    var more := acc + NameChars(ws[0]);
    if |chars| <= 2 {
      assert NameChars(ws[0]) == chars;
    } else {
      assert NameChars(ws[0]) == chars[..2];
      var rest := NameWords(chars[2..], dollar, paren);
      assert ws == [ws[0]] + rest;
      StoredSplit(mem, pos, [ws[0]], rest);
      NameParses(mem, pos + 2, more, chars[2..], dollar, paren);
      assert more + chars[2..] == acc + chars;
    }
  }

  /** The bytes of an object, from the words that hold them. */
  lemma BytesStored(mem: seq<Byte>, pos: nat, p: seq<Byte>, i: nat)
    requires |p| % 2 == 0 && i < |p| && pos + |p| <= |mem|
    requires forall k :: 0 <= k < |p| / 2 ==> Read(mem, pos + 2 * k) == Pair(p, k)
    ensures mem[pos + i] == p[i]
  {
    var k := i / 2;
    assert Read(mem, pos + 2 * k) == Pair(p, k);
    BytesOfWord(mem[pos + 2 * k], mem[pos + 2 * k + 1], p[2 * k], p[2 * k + 1]);
  }

  lemma TextStored(mem: seq<Byte>, pos: nat, bytes: seq<Byte>, p: seq<Byte>)
    requires |bytes| < MAX_STRING && p == Padded(bytes) && Stored(mem, pos, TextWords(bytes))
    ensures pos + 2 + |p| <= |mem| && Read(mem, pos) == |p| + 2
    ensures forall k :: 0 <= k < |p| / 2 ==> Read(mem, pos + 2 + 2 * k) == Pair(p, k)
  {
    hide Pair, Padded, Read;
    var ws := TextWords(bytes);
    assert Read(mem, pos + 2 * 0) == ws[0];
    forall k | 0 <= k < |p| / 2
      ensures Read(mem, pos + 2 + 2 * k) == Pair(p, k)
    {
      assert Read(mem, pos + 2 * (k + 1)) == ws[k + 1];
    }
  }

  /** The payload bytes are read one by one, whatever words they make. */
  lemma TextParses(mem: seq<Byte>, pos: nat, bytes: seq<Byte>)
    requires |bytes| < MAX_STRING && Stored(mem, pos, TextWords(bytes))
    ensures ParseText(mem, pos, TextWords(bytes)[0]) == Parsed(Text(bytes), pos + 2 * |TextWords(bytes)|)
    ensures Read(mem, pos) == TextWords(bytes)[0] && 0 < TextWords(bytes)[0] < 0x100
  {
    hide Padded;
    var p := Padded(bytes);
    TextStored(mem, pos, bytes, p);
    forall i | 0 <= i < |p|
      ensures mem[pos + 2 + i] == p[i]
    {
      BytesStored(mem, pos + 2, p, i);
    }
    forall i | 0 <= i < |bytes|
      ensures mem[pos + 3 + i] == bytes[i]
    {
      assert mem[pos + 2 + (1 + i)] == p[1 + i];
    }
    assert mem[pos + 3..pos + 3 + |bytes|] == bytes;
  }

  lemma BytesOfWord(a: Byte, b: Byte, c: Byte, d: Byte)
    requires a + 0x100 * (b as int) == c + 0x100 * (d as int)
    ensures a == c && b == d
  {
  }

  lemma ConstantParses(mem: seq<Byte>, pos: nat, n: nat, ws: seq<Word>)
    requires n < MAX_CONSTANT && Stored(mem, pos, ws)
    requires ws == (if n >= SHIFT then [n / SHIFT + 0x1000] else []) + [n % SHIFT + 0x4000]
    ensures ParseItem(mem, pos, 0) == Parsed(Constant(n), pos + 2 * |ws|)
  {
    assert Read(mem, pos + 2 * 0) == ws[0];
    if n >= SHIFT {
      assert Read(mem, pos + 2 * 1) == ws[1];
      assert (n / SHIFT + 0x1000) % 0x1000 == n / SHIFT;
      assert ParseItem(mem, pos + 2, n / SHIFT) == Parsed(Constant(n), pos + 4);
    }
  }

  lemma ItemParses(table: seq<Entry>, mem: seq<Byte>, pos: nat, item: Item)
    requires TableFits(table) && Legal(table, item) && Stored(mem, pos, ItemWords(table, item))
    ensures ParseItem(mem, pos, 0) == Parsed(item, pos + 2 * |ItemWords(table, item)|)
  {
    hide NameWords, ParseName;
    var ws := ItemWords(table, item);
    assert Read(mem, pos + 2 * 0) == ws[0];
    match item
    case Keyword(k) =>
    case Constant(n) => ConstantParses(mem, pos, n, ws);
    case Name(chars, dollar, paren) =>
      NameFirst(chars, dollar, paren);
      NameParses(mem, pos, [], chars, dollar, paren);
      assert [] + chars == chars;
    case Text(bytes) => TextParses(mem, pos, bytes);
  }

  lemma NameFirst(chars: seq<nat>, dollar: bool, paren: bool)
    requires chars != [] && Letters(chars)
    ensures NameWords(chars, dollar, paren)[0] >= 0xc000
  {
  }

  lemma LegalTail(table: seq<Entry>, items: seq<Item>)
    requires items != [] && AllLegal(table, items)
    ensures Legal(table, items[0]) && AllLegal(table, items[1..])
  {
  }

  lemma WordsSplit(table: seq<Entry>, items: seq<Item>)
    requires TableFits(table) && items != [] && AllLegal(table, items) && Legal(table, items[0]) &&
             AllLegal(table, items[1..])
    ensures Words(table, items) == ItemWords(table, items[0]) + Words(table, items[1..])
  {
  }

  lemma StoredLineSplit(mem: seq<Byte>, addr: nat, a: seq<Word>, b: seq<Word>)
    requires StoredLine(mem, addr, a + b)
    ensures Stored(mem, addr, a) && StoredLine(mem, addr + 2 * |a|, b)
  {
    StoredSplit(mem, addr, a, b);
  }

  /** The first item of a stored line parses, and the rest is a stored line. */
  lemma FirstOfLine(table: seq<Entry>, mem: seq<Byte>, pos: nat, items: seq<Item>) returns (next: nat)
    requires TableFits(table) && items != [] && AllLegal(table, items) && StoredLine(mem, pos, Words(table, items))
    ensures AllLegal(table, items[1..]) && StoredLine(mem, next, Words(table, items[1..]))
    ensures ParseItem(mem, pos, 0) == Parsed(items[0], next)
    ensures pos < next < |mem| && next + 2 * |Words(table, items[1..])| == pos + 2 * |Words(table, items)|
  {
    hide ItemWords, ParseItem;
    LegalTail(table, items);
    WordsSplit(table, items);
    var first, rest := ItemWords(table, items[0]), Words(table, items[1..]);
    next := pos + 2 * |first|;
    assert Stored(mem, pos, first) && StoredLine(mem, next, rest) by {
      StoredLineSplit(mem, pos, first, rest);
    }
    ItemParses(table, mem, pos, items[0]);
  }

  lemma ParseItemsOn(mem: seq<Byte>, pos: nat, item: Item, next: nat, items: seq<Item>, stop: nat)
    requires ParseItem(mem, pos, 0) == Parsed(item, next) && next <= |mem| && ParseItems(mem, next) == Line(items, stop)
    ensures ParseItems(mem, pos) == Line([item] + items, stop)
  {
  }

  lemma EmptyLine(table: seq<Entry>, mem: seq<Byte>, pos: nat)
    requires TableFits(table) && StoredLine(mem, pos, [])
    ensures ParseItems(mem, pos) == Line([], pos)
  {
  }

  /** Any list of items decodes to itself, and the walk stops exactly at the zero word after it, though
      the words of a string may look like anything, the terminator included. */
  lemma {:induction false} ItemsParse(table: seq<Entry>, mem: seq<Byte>, pos: nat, items: seq<Item>)
    requires TableFits(table) && AllLegal(table, items) && StoredLine(mem, pos, Words(table, items))
    ensures ParseItems(mem, pos) == Line(items, pos + 2 * |Words(table, items)|)
    decreases items
  {
    hide ParseItems, ItemWords, Read, Stored;
    if items == [] {
      assert Words(table, items) == [] && items == [];
      EmptyLine(table, mem, pos);
    } else {
      var next := FirstOfLine(table, mem, pos, items);
      ItemsParse(table, mem, next, items[1..]);
      assert [items[0]] + items[1..] == items;
      var stop := pos + 2 * |Words(table, items)|;
      assert ParseItems(mem, pos) == Line(items, stop) by {
        ParseItemsOn(mem, pos, items[0], next, items[1..], stop);
      }
    }
  }
}
