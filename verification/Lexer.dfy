/** BASIC text to items and back: what the tokeniser reads, what the detokeniser prints, and when
    printing and reading again gives the same items (scripts/tokeniser.py, scripts/dump_export.py). */
module Lexer {
  import opened Primitives
  import opened Chars
  import opened Tokens

  // ----- the table

  /** The length of an identifier with its optional $ and ( at the front of the text. */
  function WholeRun(s: string): (n: nat)
    ensures AlnumRun(s) <= n <= |s|
  {
    var a := AlnumRun(s);
    var d := if a < |s| && s[a] == '$' then a + 1 else a;
    if d < |s| && s[d] == '(' then d + 1 else d
  }

  /** A name the identifier pattern takes whole, or one of other ASCII characters without spaces. */
  predicate Wordy(name: string) {
    name != "" && IsLetter(name[0]) && WholeRun(name) == |name|
  }

  predicate Symbolic(name: string) {
    && name != "" && !IsLetter(name[0]) && !IsDigit(name[0]) && name[0] != '"'
    && forall i :: 0 <= i < |name| ==> !IsSpace(name[i]) && name[i] < (128 as char)
  }

  /** Lower case, each name once, and every name of a kind the tokeniser can find again. */
  predicate TableReadable(table: seq<Entry>) {
    && TableFits(table)
    && (forall k :: 0 <= k < |table| ==>
      Lower(table[k].name) == table[k].name && (Wordy(table[k].name) || Symbolic(table[k].name)))
    && (forall j, k :: 0 <= j < k < |table| ==> table[j].name != table[k].name)
  }

  datatype Found = Missing | At(k: nat)

  function FindExact(table: seq<Entry>, s: string, n: nat): (f: Found)
    requires n <= |table|
    ensures f.At? ==> f.k < n && table[f.k].name == s
    ensures f.Missing? ==> forall k :: 0 <= k < n ==> table[k].name != s
  {
    if n == 0 then Missing else if table[n - 1].name == s then At(n - 1) else FindExact(table, s, n - 1)
  }

  /** The longest name the text starts with. */
  function FindLongest(table: seq<Entry>, s: string, n: nat): (f: Found)
    requires n <= |table|
    ensures f.At? ==> f.k < n && table[f.k].name <= s && forall k :: 0 <= k < n && table[k].name <= s ==>
            |table[k].name| <= |table[f.k].name|
    ensures f.Missing? ==> forall k :: 0 <= k < n ==> !(table[k].name <= s)
  {
    if n == 0 then Missing
    else
      var best := FindLongest(table, s, n - 1);
      if table[n - 1].name <= s &&
        (best.Missing? || |table[best.k].name| < |table[n - 1].name|) then At(n - 1) else best
  }

  // ----- characters of names

  function Code(c: char): (n: nat)
    requires IsAlnum(c)
    ensures 1 <= n <= 36
  {
    if IsDigit(c) then (c - '0') as nat + 27 else (UpperChar(c) - 'A') as nat + 1
  }

  function CodeChar(n: nat): (c: char)
    requires 1 <= n <= 36
    ensures IsAlnum(c) && LowerChar(c) == c && Code(c) == n && (IsLetter(c) <==> n <= 26)
  {
    if n <= 26 then (96 + n) as char else (n - 27 + 48) as char
  }

  /** Letters in either case are 1 to 26 in order, digits 27 to 36. */
  lemma CodeOrder(c: char)
    requires IsAlnum(c)
    ensures 'a' <= c <= 'z' ==> Code(c) == (c as int) - ('a' as int) + 1
    ensures 'A' <= c <= 'Z' ==> Code(c) == (c as int) - ('A' as int) + 1
    ensures '0' <= c <= '9' ==> Code(c) == (c as int) - ('0' as int) + 27
  {
  }

  function Codes(s: string): (cs: seq<nat>)
    requires forall i :: 0 <= i < |s| ==> IsAlnum(s[i])
    ensures |cs| == |s| && Letters(cs)
  {
    seq(|s|, i requires 0 <= i < |s| => Code(s[i]))
  }

  function CodeText(cs: seq<nat>): (s: string)
    requires Letters(cs)
    ensures |s| == |cs|
    ensures forall i :: 0 <= i < |s| ==> IsAlnum(s[i])
  {
    seq(|cs|, i requires 0 <= i < |cs| => CodeChar(cs[i]))
  }

  lemma CodesOfText(cs: seq<nat>)
    requires Letters(cs)
    ensures Codes(CodeText(cs)) == cs && Lower(CodeText(cs)) == CodeText(cs)
  {
    forall i | 0 <= i < |cs|
      ensures Codes(CodeText(cs))[i] == cs[i] && Lower(CodeText(cs))[i] == CodeText(cs)[i]
    {
      assert CodeText(cs)[i] == CodeChar(cs[i]);
    }
  }

  lemma TextOfCodes(s: string)
    requires forall i :: 0 <= i < |s| ==> IsAlnum(s[i])
    ensures CodeText(Codes(s)) == Lower(s)
  {
  }

  function Suffix(dollar: bool, paren: bool): string {
    (if dollar then "$" else "") + if paren then "(" else ""
  }

  // ----- reading one item

  datatype Lexed = Stuck | Lexed(item: Item, rest: string)

  /** One line of ASCII. */
  predicate Plain(s: string) {
    forall i :: 0 <= i < |s| ==> s[i] < (128 as char) && s[i] != '\n'
  }

  function ByteOf(c: char): Byte {
    (c as int) % 0x100
  }

  function BytesOf(s: string): (b: seq<Byte>)
    ensures |b| == |s|
  {
    seq(|s|, i requires 0 <= i < |s| => ByteOf(s[i]))
  }

  /** An identifier, which is a keyword when all of it, with its $ and (, is one. */
  function LexWord(table: seq<Entry>, s: string): Lexed
    requires s != "" && IsLetter(s[0])
  {
    var a := AlnumRun(s);
    var dollar := a < |s| && s[a] == '$';
    var n := WholeRun(s);
    var f := FindExact(table, Lower(s[..n]), |table|);
    if f.At? then Lexed(Keyword(f.k), s[n..])
    else Lexed(Name(Codes(s[..a]), dollar, n > if dollar then a + 1 else a), s[n..])
  }

  function LexNumber(s: string): Lexed {
    var n := DigitRun(s);
    if Value(s[..n]) >= MAX_CONSTANT then Stuck else Lexed(Constant(Value(s[..n])), s[n..])
  }

  function LexString(s: string): Lexed
    requires s != ""
  {
    var q := QuoteAt(s, 1);
    if q == |s| || q - 1 >= MAX_STRING then Stuck else Lexed(Text(BytesOf(s[1..q])), s[q + 1..])
  }

  function LexOne(table: seq<Entry>, s: string): (r: Lexed)
    requires TableReadable(table) && s != ""
    ensures r.Lexed? ==> |r.rest| < |s|
  {
    if IsLetter(s[0]) then LexWord(table, s)
    else
      var f := FindLongest(table, Lower(s), |table|);
      if f.At? then Lexed(Keyword(f.k), s[|table[f.k].name|..])
      else if IsDigit(s[0]) then LexNumber(s)
      else if s[0] == '"' then LexString(s)
      else Stuck
  }

  /** All the items of a line; one that cannot be read spoils the whole. */
  datatype Reading = Bad | Good(items: seq<Item>)

  function Cons(item: Item, line: Reading): Reading {
    if line.Bad? then Bad else Good([item] + line.items)
  }

  function LexAll(table: seq<Entry>, s: string): Reading
    requires TableReadable(table)
    decreases |s|
  {
    var t := Strip(s);
    if t == "" then Good([])
    else
      match LexOne(table, t)
      case Stuck => Bad
      case Lexed(item, rest) => Cons(item, LexAll(table, rest))
  }

  // ----- printing

  function TextOf(bytes: seq<Byte>): string {
    seq(|bytes|, i requires 0 <= i < |bytes| => bytes[i] as char)
  }

  /** An item without the spaces around it, and those spaces: keywords have one on either side. */
  function Core(table: seq<Entry>, item: Item): string
    requires Legal(table, item)
  {
    match item
    case Keyword(k) => Upper(table[k].name)
    case Constant(n) => Digits(n)
    case Name(chars, dollar, paren) => CodeText(chars) + Suffix(dollar, paren)
    case Text(bytes) => ['"'] + TextOf(bytes) + ['"']
  }

  function Pad(item: Item): (s: string)
    ensures AllSpace(s)
  {
    if item.Keyword? then " " else ""
  }

  function Render(table: seq<Entry>, item: Item): string
    requires Legal(table, item)
  {
    Pad(item) + Core(table, item) + Pad(item)
  }

  /** A keyword is printed in capitals between spaces, */
  lemma KeywordForm(table: seq<Entry>, k: nat, r: string)
    requires TableReadable(table) && k < |table| && r == Render(table, Keyword(k))
    ensures |r| == |table[k].name| + 2 && r[0] == r[|r| - 1] == ' '
    ensures forall i :: 0 <= i < |table[k].name| ==>
            LowerChar(r[i + 1]) == table[k].name[i] && !('a' <= r[i + 1] <= 'z')
  {
    hide Wordy, Symbolic, TableFits;
    forall i | 0 <= i < |table[k].name|
      ensures LowerChar(r[i + 1]) == table[k].name[i] && !('a' <= r[i + 1] <= 'z')
    {
      assert Lower(table[k].name)[i] == table[k].name[i] && r[i + 1] == Upper(table[k].name)[i];
    }
  }

  /** a number in decimal without leading zeros, */
  lemma ConstantForm(table: seq<Entry>, n: nat, r: string)
    requires n < MAX_CONSTANT && r == Render(table, Constant(n))
    ensures (forall i :: 0 <= i < |r| ==> '0' <= r[i] <= '9') && Value(r) == n && (n > 0 ==> r[0] != '0')
  {
    assert r == Digits(n);
    DigitsValue(n);
    NoLeadingZero(n);
  }

  /** a name in small letters with its marks after it, */
  lemma NameForm(table: seq<Entry>, cs: seq<nat>, dollar: bool, paren: bool, r: string)
    requires Legal(table, Name(cs, dollar, paren)) && r == Render(table, Name(cs, dollar, paren))
    ensures r[|cs|..] == (if dollar then "$" else "") + (if paren then "(" else "")
    ensures forall i :: 0 <= i < |cs| ==> IsAlnum(r[i]) && !('A' <= r[i] <= 'Z') && Code(r[i]) == cs[i]
  {
    assert r == CodeText(cs) + Suffix(dollar, paren);
    forall i | 0 <= i < |cs|
      ensures IsAlnum(r[i]) && !('A' <= r[i] <= 'Z') && Code(r[i]) == cs[i]
    {
      assert r[i] == CodeText(cs)[i] == CodeChar(cs[i]);
    }
  }

  /** and a string in quotes. */
  lemma TextForm(table: seq<Entry>, bytes: seq<Byte>, r: string)
    requires |bytes| < MAX_STRING && r == Render(table, Text(bytes))
    ensures |r| == |bytes| + 2 && r[0] == r[|r| - 1] == '"'
    ensures forall i :: 0 <= i < |bytes| ==> r[i + 1] as int == bytes[i]
  {
    assert r == ['"'] + TextOf(bytes) + ['"'];
  }

  lemma {:induction false} NoLeadingZero(n: nat)
    ensures n > 0 ==> Digits(n)[0] != '0'
  {
    if n >= 10 {
      NoLeadingZero(n / 10);
    }
  }

  function RenderAll(table: seq<Entry>, items: seq<Item>): string
    requires AllLegal(table, items)
  {
    if items == [] then "" else Render(table, items[0]) + RenderAll(table, items[1..])
  }

  // ----- the items that come out of the tokeniser

  /** A name that is not a keyword, starting with a letter; a string that fits between quotes on one line. */
  predicate Lexical(table: seq<Entry>, item: Item) {
    && Legal(table, item)
    && (item.Name? ==>
      item.chars[0] <= 26 && FindExact(table, CodeText(item.chars) + Suffix(item.dollar, item.paren), |table|).Missing?)
    && (item.Text? ==> forall i :: 0 <= i < |item.bytes| ==>
      item.bytes[i] < 128 && item.bytes[i] != 34 && item.bytes[i] != 10)
  }

  predicate AllLexical(table: seq<Entry>, items: seq<Item>) {
    forall i :: 0 <= i < |items| ==> Lexical(table, items[i])
  }

  lemma WordLexical(table: seq<Entry>, s: string)
    requires s != "" && IsLetter(s[0])
    ensures var r := LexWord(table, s); Lexical(table, r.item)
  {
    var a := AlnumRun(s);
    var dollar := a < |s| && s[a] == '$';
    var n := WholeRun(s);
    var paren := n > if dollar then a + 1 else a;
    TextOfCodes(s[..a]);
    assert Lower(s[..n]) == Lower(s[..a]) + Suffix(dollar, paren);
  }

  lemma NumberLexical(table: seq<Entry>, s: string)
    ensures var r := LexNumber(s); r.Lexed? ==> Lexical(table, r.item)
  {
  }

  lemma StringLexical(table: seq<Entry>, s: string)
    requires s != "" && Plain(s)
    ensures var r := LexString(s); r.Lexed? ==> Lexical(table, r.item)
  {
  }

  lemma OneLexical(table: seq<Entry>, s: string)
    requires TableReadable(table) && s != "" && Plain(s)
    ensures var r := LexOne(table, s); r.Lexed? ==> Lexical(table, r.item) && Plain(r.rest)
  {
    if IsLetter(s[0]) {
      WordLexical(table, s);
    } else if IsDigit(s[0]) {
      NumberLexical(table, s);
    } else if s[0] == '"' {
      StringLexical(table, s);
    }
  }
}
