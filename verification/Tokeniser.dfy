/** The tokeniser as it runs: an output buffer, a token table searched longest name first, and the
    words it appends for each item of the text (scripts/tokeniser.py). */
module Tokeniser {
  import opened Primitives
  import opened Chars
  import opened Tokens
  import opened Lexer
  import opened RoundTrip
  import opened Listing

  // ----- the search order

  function NameLength(table: seq<Entry>, k: nat): nat {
    if k < |table| then |table[k].name| else 0
  }

  predicate Descending(table: seq<Entry>, order: seq<nat>) {
    forall i, j :: 0 <= i < j < |order| ==> NameLength(table, order[i]) >= NameLength(table, order[j])
  }

  /** A number put in after all those of longer names. */
  function Inserted(table: seq<Entry>, order: seq<nat>, k: nat): (r: seq<nat>)
    requires Descending(table, order)
    ensures Descending(table, r) && k in r && forall x: nat :: x in r <==> x == k || x in order
  {
    if order == [] then [k]
    else if NameLength(table, order[0]) < NameLength(table, k) then [k] + order
    else
      var rest := Inserted(table, order[1..], k);
      assert forall x: nat :: x in order <==> x == order[0] || x in order[1..];
      assert forall x: nat :: x in rest ==> NameLength(table, order[0]) >= NameLength(table, x);
      [order[0]] + rest
  }

  /** The numbers of the first n entries, longest names first. */
  function LongestFirst(table: seq<Entry>, n: nat): (r: seq<nat>)
    ensures Descending(table, r) && forall k: nat :: k in r <==> k < n
  {
    if n == 0 then [] else Inserted(table, LongestFirst(table, n - 1), n - 1)
  }

  /** Names are told apart by their numbers. */
  lemma NamesDiffer(table: seq<Entry>, j: nat, k: nat)
    requires TableReadable(table) && j < |table| && k < |table| && table[j].name == table[k].name
    ensures j == k
  {
  }

  predicate Matches(table: seq<Entry>, k: nat, s: string, exactMatch: bool) {
    k < |table| && table[k].name <= s && (!exactMatch || s == table[k].name)
  }

  /** In that order the first name the text starts with is the longest. */
  lemma FirstIsLongest(table: seq<Entry>, order: seq<nat>, s: string, i: nat)
    requires TableReadable(table) && Descending(table, order) &&
             (forall k: nat :: k in order <==> k < |table|) && i < |order|
    requires Matches(table, order[i], s, false) && forall j :: 0 <= j < i ==> !Matches(table, order[j], s, false)
    ensures FindLongest(table, s, |table|) == At(order[i])
  {
    var found := FindLongest(table, s, |table|);
    var best := found.k;
    assert best in order;
    var j :| 0 <= j < |order| && order[j] == best;
    hide TableReadable, FindLongest;
    assert Matches(table, order[j], s, false);
    assert NameLength(table, order[i]) >= NameLength(table, order[j]);
    assert table[best].name == table[order[i]].name by {
      assert s[..|table[best].name|] == table[best].name && s[..|table[order[i]].name|] == table[order[i]].name;
    }
    NamesDiffer(table, best, order[i]);
  }

  lemma ExactIsOnly(table: seq<Entry>, s: string, k: nat)
    requires TableReadable(table) && Matches(table, k, s, true)
    ensures FindExact(table, s, |table|) == At(k)
  {
    NamesDiffer(table, FindExact(table, s, |table|).k, k);
  }

  lemma NoneMatches(table: seq<Entry>, order: seq<nat>, s: string, exactMatch: bool)
    requires (forall k: nat :: k in order <==> k < |table|) && forall j :: 0 <= j < |order| ==>
             !Matches(table, order[j], s, exactMatch)
    ensures exactMatch ==> FindExact(table, s, |table|).Missing?
    ensures !exactMatch ==> FindLongest(table, s, |table|).Missing?
  {
    forall k | 0 <= k < |table|
      ensures if exactMatch then table[k].name != s else !(table[k].name <= s)
    {
      assert k in order && !Matches(table, k, s, exactMatch);
    }
  }

  datatype Rest = Failed | Rest(text: string)

  class Tokeniser {
    const tokens: seq<Entry>
    const order: seq<nat>
    var buffer: seq<Word>

    predicate Valid() {
      TableFits(tokens) && TableReadable(tokens) && order == LongestFirst(tokens, |tokens|)
    }

    constructor (tokens: seq<Entry>)
      requires TableReadable(tokens)
      ensures Valid() && this.tokens == tokens && buffer == []
    {
      this.tokens, order, buffer := tokens, LongestFirst(tokens, |tokens|), [];
    }

    method FindToken(s: string, exactMatch: bool) returns (f: Found)
      requires Valid()
      ensures f == if exactMatch then FindExact(tokens, Lower(s), |tokens|) else FindLongest(tokens, Lower(s), |tokens|)
    {
      hide TableReadable, FindExact, FindLongest, Lower;
      var t, i := Lower(s), 0;
      while i < |order|
        invariant i <= |order|
        invariant forall j :: 0 <= j < i ==> !Matches(tokens, order[j], t, exactMatch)
      {
        assert order[i] in order;
        if Matches(tokens, order[i], t, exactMatch) {
          if exactMatch {
            ExactIsOnly(tokens, t, order[i]);
          } else {
            FirstIsLongest(tokens, order, t, i);
          }
          return At(order[i]);
        }
        i := i + 1;
      }
      NoneMatches(tokens, order, t, exactMatch);
      f := Missing;
    }

    method Convert(c: char) returns (n: nat)
      requires IsAlnum(c)
      ensures n == Code(c)
    {
      var u := UpperChar(c);
      if 'A' <= u <= 'Z' {
        n := (u - 'A') as nat + 1;
      } else {
        n := (u - '0') as nat + 27;
      }
    }

    method ConvertAll(word: string) returns (ident: seq<nat>)
      requires forall i :: 0 <= i < |word| ==> IsAlnum(word[i])
      ensures ident == Codes(word)
    {
      ident := [];
      for i := 0 to |word|
        invariant ident == Codes(word)[..i]
      {
        var n := Convert(word[i]);
        ident := ident + [n];
      }
    }

    method AppendName(codes: seq<nat>, dollar: bool, paren: bool)
      requires codes != [] && Letters(codes)
      modifies this`buffer
      ensures buffer == old(buffer) + NameWords(codes, dollar, paren)
    {
      hide NameWords;
      ghost var all := old(buffer) + NameWords(codes, dollar, paren);
      assert codes[0..] == codes;
      var ident := if |codes| % 2 != 0 then codes + [0] else codes;
      var i := 0;
      while i < |ident| - 1
        invariant i % 2 == 0 && i <= |ident|
        invariant buffer + NamesFrom(codes, i, dollar, paren) == all
      {
        var word := 0xc000 + ident[i] + ident[i + 1] * 45;
        if i != |ident| - 2 {
          word := word + 0x800;
        }
        if paren {
          word := word + 0x1000;
        }
        if dollar {
          word := word + 0x2000;
        }
        NextNameWord(codes, i, dollar, paren, word);
        assert buffer + ([word] + NamesFrom(codes, i + 2, dollar, paren)) == buffer + [word] +
          NamesFrom(codes, i + 2, dollar, paren);
        buffer := buffer + [word];
        i := i + 2;
      }
    }

    method AppendConstant(value: nat)
      requires TableFits(tokens) && value < MAX_CONSTANT
      modifies this`buffer
      ensures buffer == old(buffer) + ItemWords(tokens, Constant(value))
    {
      if value >= SHIFT {
        buffer := buffer + [value / SHIFT + 0x1000];
      }
      buffer := buffer + [value % SHIFT + 0x4000];
    }

    method StringBytes(text: string) returns (p: seq<Byte>)
      requires |text| < MAX_STRING
      ensures p == Padded(BytesOf(text))
    {
      var bytes: seq<Byte> := [];
      for i := 0 to |text|
        invariant bytes == BytesOf(text)[..i]
      {
        bytes := bytes + [ByteOf(text[i])];
      }
      p := [|bytes|] + bytes;
      if |p| % 2 != 0 {
        p := p + [0];
      }
    }

    method AppendString(text: string)
      requires |text| < MAX_STRING
      modifies this`buffer
      ensures buffer == old(buffer) + TextWords(BytesOf(text))
    {
      hide Padded, Pairs;
      var p := StringBytes(text);
      buffer := buffer + [|p| / 2 * 2 + 2];
      AppendPairs(p);
    }

    method AppendPairs(p: seq<Byte>)
      requires |p| % 2 == 0
      modifies this`buffer
      ensures buffer == old(buffer) + Pairs(p)
    {
      for i := 0 to |p| / 2
        invariant buffer == old(buffer) + Pairs(p)[..i]
      {
        buffer := buffer + [p[2 * i] + 0x100 * (p[2 * i + 1] as int)];
      }
    }

    /** One item off the front of the text: its words on the end of the buffer, and the text after it. */
    method TokeniseOne(s: string) returns (r: Rest)
      requires Valid() && s != ""
      modifies this`buffer
      ensures LexOne(tokens, s).Stuck? ==> r.Failed? && buffer == old(buffer)
      ensures LexOne(tokens, s).Lexed? ==>
                var one := LexOne(tokens, s);
                Legal(tokens, one.item) && r == Rest(one.rest) && buffer == old(buffer) + ItemWords(tokens, one.item)
    {
      OneLegal(tokens, s);
      if IsLetter(s[0]) {
        r := TokeniseWord(s);
        return;
      }
      var t := FindToken(s, false);
      if t.At? {
        buffer := buffer + [KeywordWord(tokens, t.k)];
        return Rest(s[|tokens[t.k].name|..]);
      }
      if IsDigit(s[0]) {
        var n := DigitRun(s);
        var value := Value(s[..n]);
        if value >= MAX_CONSTANT {
          return Failed;
        }
        AppendConstant(value);
        return Rest(s[n..]);
      }
      if s[0] == '"' {
        var q := QuoteAt(s, 1);
        if q == |s| || q - 1 >= MAX_STRING {
          return Failed;
        }
        AppendString(s[1..q]);
        return Rest(s[q + 1..]);
      }
      r := Failed;
    }

    method TokeniseWord(s: string) returns (r: Rest)
      requires Valid() && s != "" && IsLetter(s[0])
      modifies this`buffer
      ensures var one := LexWord(tokens, s);
              Legal(tokens, one.item) && r == Rest(one.rest) && buffer == old(buffer) + ItemWords(tokens, one.item)
    {
      hide LongestFirst, NameWords, KeywordWord, TableReadable, TableFits, Codes, FindExact;
      var a := AlnumRun(s);
      var dollar := a < |s| && s[a] == '$';
      var n := if dollar then a + 1 else a;
      var paren := n < |s| && s[n] == '(';
      n := if paren then n + 1 else n;
      var t := FindToken(s[..n], true);
      if t.At? {
        buffer := buffer + [KeywordWord(tokens, t.k)];
      } else {
        var ident := ConvertAll(s[..a]);
        AppendName(ident, dollar, paren);
      }
      r := Rest(s[n..]);
    }

    /** The whole line: the buffer holds the words of its items, or the line cannot be tokenised. */
    method Tokenise(text: string) returns (ok: bool)
      requires Valid() && Plain(text)
      modifies this`buffer
      ensures ok == LexAll(tokens, text).Good?
      ensures ok ==> AllLegal(tokens, LexAll(tokens, text).items) && buffer == Words(tokens, LexAll(tokens, text).items)
    {
      hide TableReadable, Plain, Strip, LexOne, Legal, ItemWords;
      buffer := [];
      var s := Strip(text);
      ghost var done: seq<Item> := [];
      StripTwice(text);
      NothingBefore(LexAll(tokens, s));
      while s != ""
        invariant Strip(s) == s && AllLegal(tokens, done) && buffer == Words(tokens, done)
        invariant LexAll(tokens, text) == After(done, LexAll(tokens, s))
        decreases |s|
      {
        var r := TokeniseOne(s);
        if r.Failed? {
          return false;
        }
        ghost var item := LexOne(tokens, s).item;
        StripTwice(r.text);
        OneMore(tokens, done, item, LexAll(tokens, r.text));
        done := done + [item];
        s := Strip(r.text);
      }
      assert done + [] == done;
      ok := true;
    }
  }

  /** The words a name still has to put out. */
  function NamesFrom(codes: seq<nat>, i: nat, dollar: bool, paren: bool): seq<Word>
    requires Letters(codes)
  {
    if i >= |codes| then [] else NameWords(codes[i..], dollar, paren)
  }

  lemma NextNameWord(codes: seq<nat>, i: nat, dollar: bool, paren: bool, word: nat)
    requires Letters(codes) && i < |codes|
    requires word == 0xc000 + codes[i] + (if i + 1 < |codes| then codes[i + 1] else 0) * 45 +
             (if i + 2 < |codes| then 0x800 else 0) + Marks(dollar, paren)
    ensures word < 0x10000 && NamesFrom(codes, i, dollar, paren) == [word] + NamesFrom(codes, i + 2, dollar, paren)
  {
    if i + 2 < |codes| {
      assert codes[i..][2..] == codes[i + 2..];
    }
  }

  function After(done: seq<Item>, line: Reading): Reading {
    if line.Bad? then Bad else Good(done + line.items)
  }

  lemma NothingBefore(line: Reading)
    ensures After([], line) == line
  {
    if line.Good? {
      assert [] + line.items == line.items;
    }
  }

  lemma OneMore(table: seq<Entry>, done: seq<Item>, item: Item, line: Reading)
    requires TableFits(table) && AllLegal(table, done) && Legal(table, item)
    ensures After(done, Cons(item, line)) == After(done + [item], line)
    ensures AllLegal(table, done + [item]) && Words(table, done + [item]) == Words(table, done) + ItemWords(table, item)
  {
    if line.Good? {
      assert done + ([item] + line.items) == done + [item] + line.items;
    }
    LegalAppend(table, done, item);
    WordsAppend(table, done, item);
  }

  lemma LegalAppend(table: seq<Entry>, done: seq<Item>, item: Item)
    requires AllLegal(table, done) && Legal(table, item)
    ensures AllLegal(table, done + [item])
  {
  }

  lemma {:induction false} WordsAppend(table: seq<Entry>, done: seq<Item>, item: Item)
    requires TableFits(table) && AllLegal(table, done) && Legal(table, item) && AllLegal(table, done + [item])
    ensures Words(table, done + [item]) == Words(table, done) + ItemWords(table, item)
    decreases |done|
  {
    hide AllLegal, Legal, ItemWords;
    if done == [] {
      assert done + [item] == [item] && [item][1..] == [];
    } else {
      var rest := done[1..];
      LegalTail(table, done);
      LegalAppend(table, rest, item);
      assert (done + [item])[1..] == rest + [item] && (done + [item])[0] == done[0];
      WordsAppend(table, rest, item);
      assert ItemWords(table, done[0]) +
        (Words(table, rest) + ItemWords(table, item)) == ItemWords(table, done[0]) + Words(table, rest) +
        ItemWords(table, item);
    }
  }

  lemma OneLegal(table: seq<Entry>, s: string)
    requires TableReadable(table) && s != ""
    ensures var one := LexOne(table, s); one.Lexed? ==> Legal(table, one.item)
  {
  }

  lemma {:induction false} StripTwice(s: string)
    ensures Strip(Strip(s)) == Strip(s)
  {
    LeftStripped(s);
    RightStripped(StripLeft(s));
    var t := Strip(s);
    if t != "" {
      BareStrip(t);
    }
  }

  lemma {:induction false} LeftStripped(s: string)
    ensures var t := StripLeft(s); t != "" ==> !IsSpace(t[0])
  {
    if s != "" && IsSpace(s[0]) {
      LeftStripped(s[1..]);
    }
  }

  lemma {:induction false} RightStripped(s: string)
    requires s != "" ==> !IsSpace(s[0])
    ensures var t := StripRight(s); t != "" ==> !IsSpace(t[|t| - 1]) && !IsSpace(t[0])
  {
    if s != "" && IsSpace(s[|s| - 1]) {
      RightStripped(s[..|s| - 1]);
    }
  }

  // ----- words determine items, so the round trip is one of words

  function Laid(ws: seq<Word>): (mem: seq<Byte>)
    ensures |mem| == 2 * |ws|
  {
    seq(2 * |ws|, i requires 0 <= i < 2 * |ws| => if i % 2 == 0 then ws[i / 2] % 0x100 else ws[i / 2] / 0x100)
  }

  lemma LaidStored(ws: seq<Word>)
    ensures StoredLine(Laid(ws + [0]), 0, ws)
  {
    var all := ws + [0];
    forall i | 0 <= i < |all|
      ensures Read(Laid(all), 2 * i) == all[i]
    {
      assert Laid(all)[2 * i] == all[i] % 0x100 && Laid(all)[2 * i + 1] == all[i] / 0x100;
    }
    assert Read(Laid(all), 2 * |ws|) == all[|ws|];
    assert Stored(Laid(all), 0, ws);
  }

  lemma WordsDetermineItems(table: seq<Entry>, a: seq<Item>, b: seq<Item>)
    requires TableFits(table) && AllLegal(table, a) && AllLegal(table, b) && Words(table, a) == Words(table, b)
    ensures a == b
  {
    var ws := Words(table, a);
    LaidStored(ws);
    ItemsParse(table, Laid(ws + [0]), 0, a);
    ItemsParse(table, Laid(ws + [0]), 0, b);
  }

  lemma KeywordPlain(table: seq<Entry>, k: nat)
    requires TableReadable(table) && k < |table|
    ensures Plain(" " + Upper(table[k].name) + " ")
  {
    var name := table[k].name;
    NameBare(table, k);
    assert Wordy(name) || Symbolic(name);
    forall i | 0 <= i < |name|
      ensures name[i] < (128 as char) && name[i] != '\n'
    {
      assert !IsSpace(name[i]);
    }
  }

  lemma RenderPlain(table: seq<Entry>, item: Item)
    requires TableReadable(table) && Lexical(table, item)
    ensures Plain(Render(table, item))
  {
    hide TableReadable, FindExact;
    match item
    case Keyword(k) => KeywordPlain(table, k);
    case Constant(n) =>
    case Name(_, _, _) =>
    case Text(_) =>
  }

  lemma {:induction false} AllPlain(table: seq<Entry>, items: seq<Item>)
    requires TableReadable(table) && AllLexical(table, items)
    ensures Plain(RenderAll(table, items))
    decreases |items|
  {
    if items != [] {
      LexicalTail(table, items);
      RenderPlain(table, items[0]);
      AllPlain(table, items[1..]);
    }
  }

  /** A line that was tokenised and stored prints as text that can be tokenised again, and gives the
      same words again exactly when nothing in it runs together. */
  lemma WordRoundTrip(table: seq<Entry>, s: string, mem: seq<Byte>, pos: nat)
    requires TableReadable(table) && Plain(s) && LexAll(table, s).Good? && AllLegal(table, LexAll(table, s).items)
    requires StoredLine(mem, pos, Words(table, LexAll(table, s).items))
    ensures var items := LexAll(table, s).items; var printed := Print(table, mem, pos, 0);
            printed.Shown? && Plain(printed.text) &&
            var again := LexAll(table, printed.text);
            (again.Good? && AllLegal(table, again.items) &&
              Words(table, again.items) == Words(table, items)) <==> Apart(items)
  {
    var items := LexAll(table, s).items;
    hide LexAll, RenderAll, Print, Words, AllLegal, StoredLine, Apart, Plain;
    LinePrints(table, mem, pos, items);
    TextRoundTrip(table, s, items);
    AllPlain(table, items);
    var again := LexAll(table, RenderAll(table, items));
    if again.Good? && AllLegal(table, again.items) && Words(table, again.items) == Words(table, items) {
      WordsDetermineItems(table, again.items, items);
    }
  }
}
