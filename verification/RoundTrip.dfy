/** Printing a tokenised line and tokenising it again (scripts/tokeniser.py, scripts/dump_export.py). */
module RoundTrip {
  import opened Primitives
  import opened Chars
  import opened Tokens
  import opened Lexer

  /** Two items that run together when printed side by side. */
  predicate Glued(a: Item, b: Item) {
    (a.Name? && !a.dollar && !a.paren && (b.Name? || b.Constant?)) || (a.Constant? && b.Constant?)
  }

  predicate Apart(items: seq<Item>) {
    forall i :: 0 <= i < |items| - 1 ==> !Glued(items[i], items[i + 1])
  }

  /** The spaces between two items. */
  function Gap(a: Item, b: Item): (s: string)
    ensures AllSpace(s)
  {
    Pad(a) + Pad(b)
  }

  /** What follows the first item of a stripped line. */
  function Tail(table: seq<Entry>, items: seq<Item>): string
    requires items != [] && AllLegal(table, items)
    decreases |items|, 0
  {
    if |items| == 1 then "" else Gap(items[0], items[1]) + Row(table, items[1..])
  }

  /** The printed line without the spaces at its ends. */
  function Row(table: seq<Entry>, items: seq<Item>): string
    requires items != [] && AllLegal(table, items)
    decreases |items|, 1
  {
    Core(table, items[0]) + Tail(table, items)
  }

  lemma CoreBare(table: seq<Entry>, item: Item)
    requires TableReadable(table) && Lexical(table, item)
    ensures Bare(Core(table, item))
  {
    match item
    case Keyword(k) => NameBare(table, k);
    case Constant(n) =>
    case Name(chars, dollar, paren) =>
    case Text(bytes) =>
  }

  lemma IdentifierBare(table: seq<Entry>, item: Item)
    requires Legal(table, item) && item.Name?
    ensures Bare(Core(table, item))
  {
  }

  /** Names hold no spaces. */
  lemma NameBare(table: seq<Entry>, k: nat)
    requires TableReadable(table) && k < |table|
    ensures forall i :: 0 <= i < |table[k].name| ==> !IsSpace(table[k].name[i]) && !IsSpace(Upper(table[k].name)[i])
  {
  }

  lemma {:induction false} RowBare(table: seq<Entry>, items: seq<Item>)
    requires TableReadable(table) && items != [] && AllLexical(table, items)
    ensures Bare(Row(table, items)) && Row(table, items)[0] == Core(table, items[0])[0]
    decreases |items|
  {
    CoreBare(table, items[0]);
    if |items| > 1 {
      RowBare(table, items[1..]);
    }
  }

  lemma {:induction false} RenderIsRow(table: seq<Entry>, items: seq<Item>)
    requires items != [] && AllLegal(table, items)
    ensures RenderAll(table, items) == Pad(items[0]) + Row(table, items) + Pad(items[|items| - 1])
    decreases |items|
  {
    if |items| == 1 {
      assert RenderAll(table, items) == Render(table, items[0]) + "";
    } else {
      LegalTail(table, items);
      var rest := items[1..];
      assert rest[0] == items[1] && rest[|rest| - 1] == items[|items| - 1];
      RenderIsRow(table, rest);
      Regroup(Pad(items[0]), Core(table, items[0]), Pad(items[0]), Pad(items[1]), Row(table, rest),
        Pad(items[|items| - 1]));
    }
  }

  lemma Regroup(a: string, b: string, c: string, d: string, e: string, f: string)
    ensures (a + b + c) + (d + e + f) == a + (b + ((c + d) + e)) + f
  {
  }

  lemma StripRender(table: seq<Entry>, items: seq<Item>)
    requires TableReadable(table) && items != [] && AllLexical(table, items)
    ensures Strip(RenderAll(table, items)) == Row(table, items)
  {
    RenderIsRow(table, items);
    RowBare(table, items);
    StripPad(Pad(items[0]), Row(table, items), Pad(items[|items| - 1]));
  }

  lemma StripTail(table: seq<Entry>, items: seq<Item>)
    requires TableReadable(table) && items != [] && AllLexical(table, items)
    ensures Strip(Tail(table, items)) == if |items| == 1 then "" else Row(table, items[1..])
  {
    if |items| > 1 {
      var row := Row(table, items[1..]);
      RowBare(table, items[1..]);
      StripPad(Gap(items[0], items[1]), row, "");
      assert Gap(items[0], items[1]) + row + "" == Tail(table, items);
    }
  }

  // ----- reading one printed item

  /** A character that cannot be taken for more of the item. */
  predicate Ends(item: Item, c: char) {
    match item
    case Keyword(k) => c == ' '
    case Constant(n) => !IsDigit(c)
    case Name(_, dollar, paren) => paren || (c != '(' && (dollar || (!IsAlnum(c) && c != '$')))
    case Text(_) => true
  }

  predicate Ended(item: Item, tail: string) {
    tail == "" || Ends(item, tail[0])
  }

  /** The pattern takes exactly the name and its marks. */
  lemma NameRuns(word: string, dollar: bool, paren: bool, tail: string, s: string)
    requires s == word + Suffix(dollar, paren) + tail && forall i :: 0 <= i < |word| ==> IsAlnum(word[i])
    requires tail == "" || paren || (tail[0] != '(' && (dollar || (!IsAlnum(tail[0]) && tail[0] != '$')))
    ensures AlnumRun(s) == |word| && WholeRun(s) == |word| + |Suffix(dollar, paren)|
    ensures (|word| < |s| && s[|word|] == '$') == dollar
  {
    var n := |word|;
    assert forall i :: 0 <= i < n ==> s[i] == word[i];
    if dollar {
      assert s[n] == '$';
      if paren {
        assert s[n + 1] == '(';
      } else if tail != "" {
        assert s[n + 1] == tail[0];
      }
    } else if paren {
      assert s[n] == '(';
    } else if tail != "" {
      assert s[n] == tail[0];
    }
    assert AlnumRun(s) == n;
  }

  /** Where the text of a name ends, and how its characters read back. */
  lemma NameParts(item: Item, tail: string, word: string, whole: string, s: string)
    requires item.Name? && item.chars != [] && Letters(item.chars) && item.chars[0] <= 26 && Ended(item, tail)
    requires word == CodeText(item.chars) && whole == word + Suffix(item.dollar, item.paren) && s == whole + tail
    ensures s != "" && IsLetter(s[0]) && AlnumRun(s) == |word| && WholeRun(s) == |whole|
    ensures (|word| < |s| && s[|word|] == '$') == item.dollar
    ensures s[..|whole|] == whole && s[..|word|] == word && s[|whole|..] == tail
    ensures Codes(word) == item.chars && Lower(whole) == whole
  {
    hide Suffix;
    CodesOfText(item.chars);
    assert s[0] == word[0] == CodeChar(item.chars[0]);
    NameRuns(word, item.dollar, item.paren, tail, s);
    assert s[..|whole|] == whole && s[..|word|] == word && s[|whole|..] == tail;
    forall i | 0 <= i < |whole|
      ensures Lower(whole)[i] == whole[i]
    {
      assert i < |word| ==> Lower(word)[i] == word[i];
    }
  }

  /** The text of a name reads as the keyword of that name, or if there is none as the name. */
  lemma LexNameOrKeyword(table: seq<Entry>, item: Item, s: string, tail: string, f: Found)
    requires TableReadable(table) && Legal(table, item) && item.Name? && item.chars[0] <= 26 && Ended(item, tail)
    requires s == Core(table, item) && f == FindExact(table, s, |table|)
    ensures LexOne(table, s + tail) == Lexed(if f.At? then Keyword(f.k) else item, tail)
  {
    hide Codes, Lower, AlnumRun, WholeRun, IsLetter, CodeText, FindExact, Ended, TableReadable, FindLongest;
    NameParts(item, tail, CodeText(item.chars), s, s + tail);
  }

  /** A line that is a name alone. */
  lemma NameOrKeywordReads(table: seq<Entry>, item: Item, s: string, f: Found)
    requires TableReadable(table) && Legal(table, item) && item.Name? && item.chars[0] <= 26
    requires s == Core(table, item) && f == FindExact(table, s, |table|)
    ensures LexAll(table, s) == Good([if f.At? then Keyword(f.k) else item])
  {
    hide Core, LexOne, FindExact, Strip, Bare, TableReadable;
    LexNameOrKeyword(table, item, s, "", f);
    IdentifierBare(table, item);
    BareStrip(s);
    StripSpaces("");
    assert s + "" == s;
  }

  lemma LexName(table: seq<Entry>, item: Item, tail: string)
    requires TableReadable(table) && Lexical(table, item) && item.Name? && Ended(item, tail)
    ensures LexOne(table, Core(table, item) + tail) == Lexed(item, tail)
  {
    hide LexOne, TableReadable, Ended, FindExact;
    var s := Core(table, item);
    LexNameOrKeyword(table, item, s, tail, FindExact(table, s, |table|));
  }

  lemma LexWordKeyword(table: seq<Entry>, k: nat, tail: string)
    requires TableReadable(table) && k < |table| && Wordy(table[k].name) && Ended(Keyword(k), tail)
    ensures LexOne(table, Core(table, Keyword(k)) + tail) == Lexed(Keyword(k), tail)
  {
    var name := table[k].name;
    var core := Upper(name);
    var s := core + tail;
    WholeOfUpper(name, tail, s);
    LowerOfUpper(name);
    assert s[..|core|] == core && s[|core|..] == tail;
  }

  /** Capitals make no difference to where an identifier ends. */
  lemma WholeOfUpper(name: string, tail: string, s: string)
    requires Wordy(name) && s == Upper(name) + tail && (tail == "" || tail[0] == ' ')
    ensures IsLetter(s[0]) && WholeRun(s) == |name|
  {
    var a := AlnumRun(name);
    assert forall i :: 0 <= i < |name| ==> s[i] == UpperChar(name[i]);
    assert |name| < |s| ==> s[|name|] == ' ';
    assert AlnumRun(s) == a;
  }

  lemma LexSymbol(table: seq<Entry>, k: nat, tail: string)
    requires TableReadable(table) && k < |table| && Symbolic(table[k].name) && Ended(Keyword(k), tail)
    ensures LexOne(table, Core(table, Keyword(k)) + tail) == Lexed(Keyword(k), tail)
  {
    var name := table[k].name;
    var s := Upper(name) + tail;
    LowerOfUpper(name);
    assert Lower(s) == name + Lower(tail);
    forall j | 0 <= j < |table| && table[j].name <= Lower(s)
      ensures |table[j].name| <= |name| && (|table[j].name| == |name| ==> j == k)
    {
      SymbolPrefix(table, j, k, tail);
    }
    assert s[|name|..] == tail;
  }

  /** Another name cannot reach past the space, and one of the same length is the same. */
  lemma SymbolPrefix(table: seq<Entry>, j: nat, k: nat, tail: string)
    requires TableReadable(table) && j < |table| && k < |table| && Symbolic(table[k].name) &&
             (tail == "" || tail[0] == ' ')
    requires table[j].name <= table[k].name + Lower(tail)
    ensures |table[j].name| <= |table[k].name| && (|table[j].name| == |table[k].name| ==> j == k)
  {
    var short, name := table[k].name, table[j].name;
    if |name| > |short| {
      assert (short + Lower(tail))[|short|] == ' ' == name[|short|];
      NameBare(table, j);
    } else if |name| == |short| {
      assert name == (short + Lower(tail))[..|name|] == short;
    }
  }

  /** No name starts like a number or a string. */
  lemma NoNameHere(table: seq<Entry>, s: string)
    requires TableReadable(table) && s != "" && (IsDigit(s[0]) || s[0] == '"')
    ensures FindLongest(table, Lower(s), |table|).Missing?
  {
    var c := Lower(s)[0];
    assert c == s[0];
    forall k | 0 <= k < |table|
      ensures !(table[k].name <= Lower(s))
    {
      assert table[k].name[0] != c;
    }
  }

  lemma DigitsRun(d: string, tail: string)
    requires (forall i :: 0 <= i < |d| ==> IsDigit(d[i])) && (tail == "" || !IsDigit(tail[0]))
    ensures DigitRun(d + tail) == |d|
  {
    var s := d + tail;
    assert forall i :: 0 <= i < |d| ==> s[i] == d[i];
    assert tail != "" ==> s[|d|] == tail[0];
  }

  lemma LexConstant(table: seq<Entry>, n: nat, tail: string)
    requires TableReadable(table) && n < MAX_CONSTANT && Ended(Constant(n), tail)
    ensures LexOne(table, Digits(n) + tail) == Lexed(Constant(n), tail)
  {
    var s := Digits(n) + tail;
    NoNameHere(table, s);
    DigitsRun(Digits(n), tail);
    assert s[..|Digits(n)|] == Digits(n) && s[|Digits(n)|..] == tail;
    DigitsValue(n);
  }

  lemma LexText(table: seq<Entry>, bytes: seq<Byte>, tail: string)
    requires TableReadable(table) && Lexical(table, Text(bytes))
    ensures LexOne(table, Core(table, Text(bytes)) + tail) == Lexed(Text(bytes), tail)
  {
    var s := Core(table, Text(bytes)) + tail;
    NoNameHere(table, s);
    var q := |bytes| + 1;
    assert s[q] == '"' && s[q + 1..] == tail;
    forall i | 1 <= i < q
      ensures s[i] != '"' && s[i] == bytes[i - 1] as char
    {
    }
    assert QuoteAt(s, 1) == q;
    assert BytesOf(s[1..q]) == bytes;
  }

  /** Every printed item reads back as itself wherever it properly ends. */
  lemma LexCore(table: seq<Entry>, item: Item, tail: string)
    requires TableReadable(table) && Lexical(table, item) && Ended(item, tail)
    ensures LexOne(table, Core(table, item) + tail) == Lexed(item, tail)
  {
    match item
    case Keyword(k) =>
      if Wordy(table[k].name) {
        LexWordKeyword(table, k, tail);
      } else {
        LexSymbol(table, k, tail);
      }
    case Constant(n) => LexConstant(table, n, tail);
    case Name(_, _, _) => LexName(table, item, tail);
    case Text(bytes) => LexText(table, bytes, tail);
  }

  // ----- whole lines

  /** Items apart end where the next begins. */
  lemma ApartEnds(table: seq<Entry>, items: seq<Item>)
    requires TableReadable(table) && items != [] && AllLexical(table, items)
    requires |items| > 1 ==> !Glued(items[0], items[1])
    ensures Ended(items[0], Tail(table, items))
  {
    if |items| > 1 {
      RowBare(table, items[1..]);
      CoreStart(table, items[1]);
    }
  }

  lemma CoreStart(table: seq<Entry>, item: Item)
    requires TableReadable(table) && Lexical(table, item)
    ensures Core(table, item) != ""
    ensures item.Name? ==> IsLetter(Core(table, item)[0])
    ensures item.Constant? ==> IsDigit(Core(table, item)[0])
    ensures item.Text? ==> Core(table, item)[0] == '"'
  {
    CoreBare(table, item);
  }

  /** Reading the line gives its first item and goes on with the rest. */
  lemma FirstReads(table: seq<Entry>, items: seq<Item>, tail: string)
    requires TableReadable(table) && items != [] && AllLexical(table, items) && tail == Tail(table, items) &&
             Ended(items[0], tail)
    ensures LexAll(table, Row(table, items)) == Cons(items[0], LexAll(table, tail))
  {
    RowBare(table, items);
    BareStrip(Row(table, items));
    LexCore(table, items[0], tail);
  }

  lemma LexicalTail(table: seq<Entry>, items: seq<Item>)
    requires items != [] && AllLexical(table, items)
    ensures Lexical(table, items[0]) && AllLexical(table, items[1..])
    ensures Apart(items) ==> Apart(items[1..])
  {
  }

  /** The rest of the line reads as the line of the rest. */
  lemma TailReads(table: seq<Entry>, items: seq<Item>)
    requires TableReadable(table) && items != [] && AllLexical(table, items)
    ensures |items| == 1 ==> LexAll(table, Tail(table, items)) == Good([])
    ensures |items| > 1 ==>
            AllLexical(table, items[1..]) && LexAll(table, Tail(table, items)) == LexAll(table, Row(table, items[1..]))
  {
    StripTail(table, items);
    if |items| == 1 {
      TailDone(table, Tail(table, items));
    } else {
      LexicalTail(table, items);
      RowBare(table, items[1..]);
      SameStrip(table, Tail(table, items), Row(table, items[1..]));
    }
  }

  lemma {:induction false} RowReads(table: seq<Entry>, items: seq<Item>)
    requires TableReadable(table) && items != [] && AllLexical(table, items) && Apart(items)
    ensures LexAll(table, Row(table, items)) == Good(items)
    decreases |items|
  {
    ApartEnds(table, items);
    FirstReads(table, items, Tail(table, items));
    TailReads(table, items);
    if |items| == 1 {
      assert [items[0]] + [] == items;
    } else {
      LexicalTail(table, items);
      RowReads(table, items[1..]);
      assert [items[0]] + items[1..] == items;
    }
  }

  lemma BareStrip(s: string)
    requires Bare(s)
    ensures Strip(s) == s
  {
    StripPad("", s, "");
    assert "" + s + "" == s;
  }

  lemma TailDone(table: seq<Entry>, s: string)
    requires TableReadable(table) && Strip(s) == ""
    ensures LexAll(table, s) == Good([])
  {
  }

  /** Reading looks only at the stripped text. */
  lemma SameStrip(table: seq<Entry>, s: string, t: string)
    requires TableReadable(table) && Bare(t) && Strip(s) == t
    ensures LexAll(table, s) == LexAll(table, t)
  {
    BareStrip(t);
  }

  /** Reading any line gives lexical items. */
  lemma {:induction false} AllReadLexical(table: seq<Entry>, s: string)
    requires TableReadable(table) && Plain(s) && LexAll(table, s).Good?
    ensures AllLexical(table, LexAll(table, s).items)
    decreases |s|
  {
    var t := Strip(s);
    StripPlain(s);
    if t != "" {
      OneLexical(table, t);
      AllReadLexical(table, LexOne(table, t).rest);
    }
  }

  lemma {:induction false} StripPlain(s: string)
    requires Plain(s)
    ensures Plain(Strip(s))
  {
    StripLeftPlain(s);
    StripRightPlain(StripLeft(s));
  }

  lemma {:induction false} StripLeftPlain(s: string)
    requires Plain(s)
    ensures Plain(StripLeft(s))
  {
    if s != "" && IsSpace(s[0]) {
      StripLeftPlain(s[1..]);
    }
  }

  lemma {:induction false} StripRightPlain(s: string)
    requires Plain(s)
    ensures Plain(StripRight(s))
  {
    if s != "" && IsSpace(s[|s| - 1]) {
      StripRightPlain(s[..|s| - 1]);
    }
  }

  /** Printing and reading again gives the same items when none of them run together. */
  lemma ApartReadsBack(table: seq<Entry>, items: seq<Item>)
    requires TableReadable(table) && AllLexical(table, items) && Apart(items)
    ensures LexAll(table, RenderAll(table, items)) == Good(items)
  {
    if items == [] {
      StripSpaces("");
    } else {
      StripRender(table, items);
      RowBare(table, items);
      SameStrip(table, RenderAll(table, items), Row(table, items));
      RowReads(table, items);
    }
  }

  // ----- and only then

  lemma LongerRun(word: string, tail: string)
    requires (forall i :: 0 <= i < |word| ==> IsAlnum(word[i])) && tail != "" && IsAlnum(tail[0])
    ensures AlnumRun(word + tail) > |word|
  {
    var s := word + tail;
    assert forall i :: 0 <= i < |word| ==> s[i] == word[i];
    assert s[|word|] == tail[0];
  }

  /** A word is a keyword, or a name as long as the run of letters and digits. */
  lemma WordIsRun(table: seq<Entry>, s: string)
    requires TableReadable(table) && s != "" && IsLetter(s[0])
    ensures var r := LexOne(table, s); r.Lexed? && (r.item.Keyword? || (r.item.Name? && |r.item.chars| == AlnumRun(s)))
  {
  }

  /** A name that runs into a letter or digit is read as something longer. */
  lemma GluedName(table: seq<Entry>, items: seq<Item>)
    requires TableReadable(table) && |items| > 1 && AllLexical(table, items) && items[0].Name? &&
             Glued(items[0], items[1])
    ensures var r := LexOne(table, Row(table, items)); r.Lexed? && r.item != items[0]
  {
    var word, tail := CodeText(items[0].chars), Tail(table, items);
    CoreStart(table, items[0]);
    CoreStart(table, items[1]);
    RowBare(table, items);
    RowBare(table, items[1..]);
    assert Core(table, items[0]) == word && tail[0] == Core(table, items[1])[0] by {
      assert word + "" == word && Gap(items[0], items[1]) == "";
    }
    LongerRun(word, tail);
    WordIsRun(table, Row(table, items));
  }

  predicate AllDigits(s: string) {
    forall i :: 0 <= i < |s| ==> IsDigit(s[i])
  }

  lemma DigitsJoin(a: string, b: string)
    requires AllDigits(a) && AllDigits(b)
    ensures AllDigits(a + b)
  {
  }

  /** Constants side by side make one run of digits; the items after them, and the run. */
  lemma {:induction false} GluedConstants(table: seq<Entry>, items: seq<Item>) returns (last: seq<Item>, d: string)
    requires TableReadable(table) && items != [] && AllLexical(table, items) && items[0].Constant?
    ensures last != [] && AllLexical(table, last) && Row(table, items) == d + Tail(table, last)
    ensures d != "" && AllDigits(d)
    ensures last[0].Constant? && (|last| > 1 ==> !last[1].Constant?)
    decreases |items|
  {
    var first := Digits(items[0].n);
    if |items| == 1 || !items[1].Constant? {
      last, d := items, first;
    } else {
      var e;
      LexicalTail(table, items);
      last, e := GluedConstants(table, items[1..]);
      d := first + e;
      DigitsJoin(first, e);
      NextConstant(table, items);
      Associate(first, e, Tail(table, last));
    }
  }

  lemma Associate(a: string, b: string, c: string)
    ensures a + (b + c) == (a + b) + c
  {
  }

  lemma NextConstant(table: seq<Entry>, items: seq<Item>)
    requires |items| > 1 && AllLegal(table, items) && items[0].Constant? && items[1].Constant?
    ensures Row(table, items) == Digits(items[0].n) + Row(table, items[1..])
  {
    assert Gap(items[0], items[1]) == "";
    assert "" + Row(table, items[1..]) == Row(table, items[1..]);
  }

  /** What does not start with a digit does not read as a constant. */
  lemma NoConstantFirst(table: seq<Entry>, items: seq<Item>)
    requires TableReadable(table) && items != [] && AllLexical(table, items) && !items[0].Constant?
    ensures var r := LexAll(table, Row(table, items)); r.Good? ==> r.items == [] || !r.items[0].Constant?
  {
    hide TableReadable, Row, Core;
    var s := Row(table, items);
    RowBare(table, items);
    BareStrip(s);
    CoreNotDigit(table, items[0]);
    assert !IsDigit(s[0]);
  }

  lemma CoreNotDigit(table: seq<Entry>, item: Item)
    requires TableReadable(table) && Lexical(table, item) && !item.Constant?
    ensures Core(table, item) != "" && !IsDigit(Core(table, item)[0])
  {
    CoreBare(table, item);
    match item
    case Keyword(k) => assert !IsDigit(table[k].name[0]);
    case Name(chars, _, _) =>
    case Text(_) =>
  }

  /** Reading a bare text one item at a time. */
  lemma ReadOn(table: seq<Entry>, s: string)
    requires TableReadable(table) && Bare(s)
    ensures var r := LexOne(table, s); LexAll(table, s) == if r.Stuck? then Bad else Cons(r.item, LexAll(table, r.rest))
  {
    BareStrip(s);
  }

  /** A run of digits is all read at once, if it is read at all. */
  lemma DigitsRead(table: seq<Entry>, s: string, d: string, tail: string)
    requires TableReadable(table) && s == d + tail && d != "" && (forall i :: 0 <= i < |d| ==> IsDigit(d[i]))
    requires tail == "" || !IsDigit(tail[0])
    ensures var r := LexOne(table, s); r.Lexed? ==> r.rest == tail
  {
    assert s[0] == d[0];
    NoNameHere(table, s);
    DigitsRun(d, tail);
    assert s[|d|..] == tail;
  }

  /** After the last of the constants nothing reads as a constant. */
  lemma AfterConstants(table: seq<Entry>, items: seq<Item>)
    requires TableReadable(table) && items != [] && AllLexical(table, items) && items[0].Constant?
    requires |items| > 1 ==> !items[1].Constant?
    ensures var rest := LexAll(table, Tail(table, items)); rest.Good? ==> rest.items == [] || !rest.items[0].Constant?
    ensures Tail(table, items) == "" || !IsDigit(Tail(table, items)[0])
  {
    ApartEnds(table, items);
    TailReads(table, items);
    if |items| > 1 {
      NoConstantFirst(table, items[1..]);
    }
  }

  lemma GluedConstant(table: seq<Entry>, items: seq<Item>)
    requires TableReadable(table) && |items| > 1 && AllLexical(table, items) && items[0].Constant? && items[1].Constant?
    ensures LexAll(table, Row(table, items)) != Good(items)
  {
    var end, d := GluedConstants(table, items);
    AfterConstants(table, end);
    RowBare(table, items);
    DigitsRead(table, Row(table, items), d, Tail(table, end));
    ReadOn(table, Row(table, items));
    assert items[1..][0].Constant?;
  }

  /** A first item that stands apart is read, and the rest is read as the line of the rest. */
  lemma PassOn(table: seq<Entry>, items: seq<Item>)
    requires TableReadable(table) && |items| > 1 && AllLexical(table, items) &&
             AllLexical(table, items[1..]) && !Glued(items[0], items[1])
    ensures LexAll(table, Row(table, items)) == Cons(items[0], LexAll(table, Row(table, items[1..])))
  {
    ApartEnds(table, items);
    FirstReads(table, items, Tail(table, items));
    TailReads(table, items);
  }

  lemma GluedNameReads(table: seq<Entry>, items: seq<Item>)
    requires TableReadable(table) && |items| > 1 && AllLexical(table, items) && items[0].Name? &&
             Glued(items[0], items[1])
    ensures LexAll(table, Row(table, items)) != Good(items)
  {
    GluedName(table, items);
    RowBare(table, items);
    ReadOn(table, Row(table, items));
  }

  lemma {:induction false} GluedReadsOtherwise(table: seq<Entry>, items: seq<Item>)
    requires TableReadable(table) && items != [] && AllLexical(table, items) && !Apart(items)
    ensures LexAll(table, Row(table, items)) != Good(items)
    decreases |items|
  {
    if !Glued(items[0], items[1]) {
      LexicalTail(table, items);
      PassOn(table, items);
      StillGlued(items);
      GluedReadsOtherwise(table, items[1..]);
    } else if items[0].Name? {
      GluedNameReads(table, items);
    } else {
      GluedConstant(table, items);
    }
  }

  lemma StillGlued(items: seq<Item>)
    requires |items| > 1 && !Apart(items) && !Glued(items[0], items[1])
    ensures !Apart(items[1..])
  {
    var i :| 0 <= i < |items| - 1 && Glued(items[i], items[i + 1]);
    assert Glued(items[1..][i - 1], items[1..][i]);
  }

  /** The text round trip in full: it holds exactly for the lines in which no name without a mark is
      followed by a name or constant and no constant by a constant. */
  lemma ReadsBackExactly(table: seq<Entry>, items: seq<Item>)
    requires TableReadable(table) && AllLexical(table, items)
    ensures LexAll(table, RenderAll(table, items)) == Good(items) <==> Apart(items)
  {
    if Apart(items) {
      ApartReadsBack(table, items);
    } else {
      StripRender(table, items);
      RowBare(table, items);
      SameStrip(table, RenderAll(table, items), Row(table, items));
      GluedReadsOtherwise(table, items);
    }
  }

  /** Whatever was typed: tokenising what the detokeniser prints gives the same items again exactly
      when the items of the line are apart. */
  lemma TextRoundTrip(table: seq<Entry>, s: string, items: seq<Item>)
    requires TableReadable(table) && Plain(s) && LexAll(table, s) == Good(items)
    ensures AllLexical(table, items)
    ensures LexAll(table, RenderAll(table, items)) == Good(items) <==> Apart(items)
  {
    AllReadLexical(table, s);
    ReadsBackExactly(table, items);
  }
}
