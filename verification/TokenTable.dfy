/** Building the token table from its source words: group headers in brackets, then the keywords of
    the group, numbered from 1 in order (scripts/gentokens.py). */
module TokenTable {
  import opened Chars
  import opened Tokens
  import opened Lexer

  const MAX_NAME := 15

  datatype Group = NoGroup | Group(number: nat)

  /** Words as the preprocessing leaves them. */
  predicate Clean(word: string) {
    word != "" && Lower(word) == word && forall i :: 0 <= i < |word| ==> !IsSpace(word[i])
  }

  predicate IsHeader(word: string) {
    |word| >= 2 && word[0] == '[' && word[|word| - 1] == ']'
  }

  /** The group a header opens: a number or one of six names. */
  function HeaderGroup(word: string): Group
    requires IsHeader(word)
  {
    var name := word[1..|word| - 1];
    if name != "" && DigitRun(name) == |name| then Group(Value(name))
    else if name == "unary" then Group(8)
    else if name == "syntax" then Group(9)
    else if name == "keyword-syntax" then Group(12)
    else if name == "keyword-" then Group(13)
    else if name == "keyword+" then Group(14)
    else if name == "keyword" then Group(15)
    else NoGroup
  }

  predicate IsNumber(name: string) {
    name != "" && forall i :: 0 <= i < |name| ==> IsDigit(name[i])
  }

  /** A number opens the group it says, six names open theirs, and every other header is refused. */
  lemma HeaderGroups(name: string, word: string)
    requires word == "[" + name + "]"
    ensures IsHeader(word) && (IsNumber(name) ==> HeaderGroup(word) == Group(Value(name)))
    ensures (name == "unary" ==> HeaderGroup(word) == Group(8)) && (name == "syntax" ==> HeaderGroup(word) == Group(9))
    ensures name == "keyword-syntax" ==> HeaderGroup(word) == Group(12)
    ensures (name == "keyword-" ==> HeaderGroup(word) == Group(13)) &&
            (name == "keyword+" ==> HeaderGroup(word) == Group(14))
    ensures name == "keyword" ==> HeaderGroup(word) == Group(15)
    ensures !IsNumber(name) && name !in {"unary", "syntax", "keyword-syntax", "keyword-", "keyword+", "keyword"} ==>
              HeaderGroup(word) == NoGroup
  {
    assert word[1..|word| - 1] == name;
    AllDigits(name);
    if name in {"unary", "syntax", "keyword-syntax", "keyword-", "keyword+", "keyword"} {
      assert !IsDigit(name[0]);
    }
    hide DigitRun, Value;
  }

  lemma AllDigits(s: string)
    ensures IsNumber(s) <==> s != "" && DigitRun(s) == |s|
  {
  }

  predicate GroupAllowed(group: nat) {
    group <= 9 || 12 <= group <= 15
  }

  /** The group open after these words. */
  function GroupAfter(words: seq<string>): Group {
    if words == [] then NoGroup
    else if IsHeader(words[|words| - 1]) then HeaderGroup(words[|words| - 1])
    else GroupAfter(words[..|words| - 1])
  }

  /** The keywords in order, each with the group it stands in. */
  function Entries(words: seq<string>): seq<Entry> {
    if words == [] then []
    else
      var before, word := words[..|words| - 1], words[|words| - 1];
      if IsHeader(word) || GroupAfter(before).NoGroup? then Entries(before)
      else Entries(before) + [Entry(word, GroupAfter(before).number)]
  }

  /** What the construction insists on for the word at a place. */
  predicate WordFits(words: seq<string>, i: nat)
    requires i < |words|
  {
    && words[i] !in words[..i]
    && if IsHeader(words[i]) then HeaderGroup(words[i]).Group?
       else |words[i]| < MAX_NAME && GroupAfter(words[..i]).Group? && GroupAllowed(GroupAfter(words[..i]).number)
  }

  predicate SourceFits(words: seq<string>) {
    forall i :: 0 <= i < |words| ==> WordFits(words, i)
  }

  class TokenList {
    var tokens: seq<Entry>
    var lookup: map<string, nat>

    constructor ()
      ensures tokens == [] && lookup == map[]
    {
      tokens, lookup := [], map[];
    }

    /** Reads the source; every keyword can be looked up afterwards. */
    method Build(src: seq<string>) returns (ok: bool)
      requires tokens == [] && lookup == map[] && forall i :: 0 <= i < |src| ==> Clean(src[i])
      modifies this
      ensures ok == SourceFits(src)
      ensures ok ==> tokens == Entries(src)
      ensures ok ==> forall k :: 0 <= k < |tokens| ==> tokens[k].name in lookup && lookup[tokens[k].name] == k
    {
      hide HeaderGroup, GroupAllowed, IsHeader, Clean, Entries, GroupAfter;
      var duplicates: set<string>, currentGroup, i := {}, NoGroup, 0;
      NoWords(src);
      while i < |src|
        invariant i <= |src| && tokens == Entries(src[..i]) && currentGroup == GroupAfter(src[..i])
        invariant duplicates == set w | w in src[..i]
        invariant forall j :: 0 <= j < i ==> WordFits(src, j)
        invariant forall k :: 0 <= k < |tokens| ==>
                  tokens[k].name in duplicates && tokens[k].name in lookup && lookup[tokens[k].name] == k
      {
        var token := src[i];
        NextWord(src, i);
        if token in duplicates {
          assert !WordFits(src, i);
          return false;
        }
        duplicates := duplicates + {token};
        if IsHeader(token) {
          currentGroup := HeaderGroup(token);
          if currentGroup.NoGroup? {
            assert !WordFits(src, i);
            return false;
          }
        } else {
          if currentGroup.NoGroup? || |token| >= MAX_NAME || !GroupAllowed(currentGroup.number) {
            assert !WordFits(src, i);
            return false;
          }
          lookup := lookup[token := |tokens|];
          tokens := tokens + [Entry(token, currentGroup.number)];
        }
        i := i + 1;
      }
      assert src[..i] == src;
      ok := true;
    }
  }

  lemma NoWords(words: seq<string>)
    ensures Entries(words[..0]) == [] && GroupAfter(words[..0]) == NoGroup
  {
  }

  lemma NextWord(words: seq<string>, i: nat)
    requires i < |words|
    ensures words[..i + 1] == words[..i] + [words[i]]
    ensures IsHeader(words[i]) ==>
            GroupAfter(words[..i + 1]) == HeaderGroup(words[i]) && Entries(words[..i + 1]) == Entries(words[..i])
    ensures !IsHeader(words[i]) ==> GroupAfter(words[..i + 1]) == GroupAfter(words[..i])
    ensures !IsHeader(words[i]) && GroupAfter(words[..i]).Group? ==>
              Entries(words[..i + 1]) == Entries(words[..i]) + [Entry(words[i], GroupAfter(words[..i]).number)]
  {
    assert words[..i + 1][..i] == words[..i];
  }

  /** Every entry is one of the words, and no two are the same word. */
  lemma {:induction false} EntriesAreWords(words: seq<string>)
    requires SourceFits(words) && forall i :: 0 <= i < |words| ==> Clean(words[i])
    ensures forall k :: 0 <= k < |Entries(words)| ==>
            Entries(words)[k].name in words && Entries(words)[k].group < 16 && Clean(Entries(words)[k].name)
    ensures forall j, k :: 0 <= j < k < |Entries(words)| ==> Entries(words)[j].name != Entries(words)[k].name
    decreases |words|
  {
    if words != [] {
      var n := |words| - 1;
      ShorterFits(words);
      EntriesAreWords(words[..n]);
      assert WordFits(words, n);
    }
  }

  lemma ShorterFits(words: seq<string>)
    requires SourceFits(words) && words != []
    ensures SourceFits(words[..|words| - 1])
  {
    var before := words[..|words| - 1];
    forall i | 0 <= i < |before|
      ensures WordFits(before, i)
    {
      assert WordFits(words, i) && before[..i] == words[..i];
    }
  }

  /** A table built from its source is one the tokeniser can read and the decoder can number, exactly
      when it has fewer than 512 entries and every name is an identifier, with or without $ and (, or
      made of symbols. */
  lemma BuiltTableReadable(words: seq<string>)
    requires SourceFits(words) && forall i :: 0 <= i < |words| ==> Clean(words[i])
    ensures var table := Entries(words);
            TableReadable(table) <==>
              |table| < 0x200 && forall k :: 0 <= k < |table| ==> Wordy(table[k].name) || Symbolic(table[k].name)
  {
    EntriesAreWords(words);
  }
}
