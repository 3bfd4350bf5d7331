/** Variables as they lie in the memory block: records below the free space chained from 64 hash slots,
    names and strings above it (scripts/old_testing/variables.py, scripts/old_testing/dispvariables.py). */
module Records {
  import opened Primitives
  import opened Tokens
  import opened Lexer
  import opened Listing

  const FASTVARIABLES := 0x10
  const HASHTABLE := 0x80
  const ENTRIES := 16
  const SLOTS := 64
  const LETTERS := 26

  datatype Values = Longs(longs: seq<int>) | Texts(texts: seq<seq<Byte>>)

  /** A variable: its name without marks, and one value, or one for every subscript of an array. */
  datatype Var = Var(chars: seq<nat>, isArray: bool, values: Values)

  function Count(v: Var): nat {
    if v.values.Longs? then |v.values.longs| else |v.values.texts|
  }

  function NameItem(v: Var): Item {
    Name(v.chars, v.values.Texts?, v.isArray)
  }

  /** One value, or in an array at least one. */
  predicate Counted(v: Var) {
    Count(v) > 0 && (v.isArray || Count(v) == 1)
  }

  predicate Named(v: Var) {
    v.chars != [] && Letters(v.chars)
  }

  /** What an import asks: a name that begins with a letter, and a value. */
  predicate Nameable(v: Var) {
    Named(v) && v.chars[0] <= LETTERS && Counted(v)
  }

  /** Single-letter integers live in a table of their own. */
  predicate IsFast(v: Var) {
    !v.isArray && v.values.Longs? && |v.chars| == |v.values.longs| == 1
  }

  /** The name with its marks, as it is given to the tokeniser. */
  function NameText(v: Var): string
    requires Named(v)
  {
    CodeText(v.chars) + Suffix(v.values.Texts?, v.isArray)
  }

  /** No keyword has the name. */
  predicate NoKeyword(table: seq<Entry>, v: Var)
    requires Named(v)
  {
    FindExact(table, NameText(v), |table|).Missing?
  }

  /** What the tokeniser makes of the name: the keyword that has it, or itself. */
  function IdItem(table: seq<Entry>, v: Var): (item: Item)
    requires Named(v)
    ensures Legal(table, item) && (item.Keyword? || item == NameItem(v))
  {
    var f := FindExact(table, NameText(v), |table|);
    if f.At? then Keyword(f.k) else NameItem(v)
  }

  function IdWords(table: seq<Entry>, v: Var): (ws: seq<Word>)
    requires TableFits(table) && Named(v)
    ensures ws != []
  {
    ItemWords(table, IdItem(table, v))
  }

  // ----- 32-bit numbers

  function Signed(n: int): int {
    var m := n % 0x1_0000_0000;
    if m >= 0x8000_0000 then m - 0x1_0000_0000 else m
  }

  /** Only numbers of 32 bits with sign come back. */
  lemma SignedExactly(n: int)
    ensures Signed(n) == n <==> -0x8000_0000 <= n < 0x8000_0000
  {
    if -0x8000_0000 <= n < 0 {
      assert n % 0x1_0000_0000 == n + 0x1_0000_0000;
    }
  }

  function LongWords(ns: seq<int>): (ws: seq<Word>)
    ensures |ws| == 2 * |ns|
  {
    if ns == [] then []
    else [ns[0] % 0x1_0000_0000 % 0x10000, ns[0] % 0x1_0000_0000 / 0x10000] + LongWords(ns[1..])
  }

  lemma {:induction false} LongWordsAt(ns: seq<int>, j: nat)
    requires j < |ns|
    ensures LongWords(ns)[2 * j] == ns[j] % 0x1_0000_0000 % 0x10000 &&
            LongWords(ns)[2 * j + 1] == ns[j] % 0x1_0000_0000 / 0x10000
    decreases j
  {
    if j > 0 {
      LongWordsAt(ns[1..], j - 1);
      assert LongWords(ns)[2 + 2 * (j - 1)] == LongWords(ns[1..])[2 * (j - 1)];
    }
  }

  // ----- records

  /** The length, then the characters, then zero. */
  function Element(bytes: seq<Byte>, i: nat): nat {
    if i == 0 then |bytes| else if i <= |bytes| then bytes[i - 1] else 0
  }

  /** What is written for a string of any length: two elements a word, cut to 16 bits. */
  function WrittenText(bytes: seq<Byte>): (ws: seq<Word>)
    ensures |ws| == |bytes| / 2 + 1
  {
    seq(|bytes| / 2 + 1, i requires 0 <= i => (Element(bytes, 2 * i) + 0x100 * Element(bytes, 2 * i + 1)) % 0x10000)
  }

  /** The bytes of a word in memory. */
  lemma WordBytes(mem: seq<Byte>, addr: nat, low: nat, high: nat)
    requires addr + 1 < |mem| && Read(mem, addr) == (low + 0x100 * high) % 0x10000
    ensures mem[addr] == low % 0x100 && mem[addr + 1] == (low / 0x100 + high) % 0x100
  {
  }

  /** What the listing makes of a string: as many characters as the low byte of its length says, the rest of the
      length in the first of them. */
  function ShownText(bytes: seq<Byte>): (shown: seq<Byte>) {
    seq(|bytes| % 0x100, i requires 0 <= i < |bytes| % 0x100 =>
      if i == 0 then (bytes[0] + |bytes| / 0x100) % 0x100 else bytes[i])
  }

  /** It is the string exactly when the length is a byte. */
  lemma TextBackExactly(bytes: seq<Byte>)
    ensures ShownText(bytes) == bytes <==> |bytes| < 0x100
  {
    if |bytes| < 0x100 {
      assert forall i :: 0 <= i < |bytes| ==> ShownText(bytes)[i] == bytes[i];
    }
  }

  /** And it is what lies in memory where the string was written. */
  lemma TextHeld(mem: seq<Byte>, addr: nat, bytes: seq<Byte>)
    requires Stored(mem, addr, WrittenText(bytes))
    ensures addr < |mem| && mem[addr] as nat == |ShownText(bytes)| && addr + 1 + |ShownText(bytes)| <= |mem|
    ensures forall k :: 0 <= k < |ShownText(bytes)| ==> mem[addr + 1 + k] == ShownText(bytes)[k]
  {
    hide Read, Element;
    FirstElements(bytes);
    assert Read(mem, addr + 2 * 0) == WrittenText(bytes)[0];
    WordBytes(mem, addr, |bytes|, Element(bytes, 1));
    hide WrittenText;
    forall k | 0 < k < |ShownText(bytes)|
      ensures mem[addr + 1 + k] == ShownText(bytes)[k]
    {
      LaterByte(mem, addr, bytes, k, (k + 1) / 2);
    }
  }

  lemma LaterByte(mem: seq<Byte>, addr: nat, bytes: seq<Byte>, k: nat, i: nat)
    requires Stored(mem, addr, WrittenText(bytes)) && 0 < k < |bytes| && i == (k + 1) / 2
    ensures addr + 1 + k < |mem| && mem[addr + 1 + k] == bytes[k]
  {
    hide Read, Element;
    assert Read(mem, addr + 2 * i) == WrittenText(bytes)[i];
    LaterElements(bytes, i);
    var low, high := Element(bytes, 2 * i), Element(bytes, 2 * i + 1);
    WordBytes(mem, addr + 2 * i, low, high);
    hide *;
    assert k + 1 == 2 * i || k == 2 * i;
  }

  lemma FirstElements(bytes: seq<Byte>)
    ensures Element(bytes, 0) == |bytes| && (bytes != [] ==> Element(bytes, 1) == bytes[0])
  {
  }

  lemma LaterElements(bytes: seq<Byte>, i: nat)
    requires 0 < i
    ensures Element(bytes, 2 * i) < 0x100 && Element(bytes, 2 * i + 1) < 0x100
    ensures 2 * i <= |bytes| ==> Element(bytes, 2 * i) == bytes[2 * i - 1]
    ensures 2 * i < |bytes| ==> Element(bytes, 2 * i + 1) == bytes[2 * i]
  {
  }

  /** A variable with the words of its name, and the addresses of its record, its name and its strings. */
  datatype Placed = Placed(v: Var, name: seq<Word>, addr: Word, id: Word, texts: seq<Word>)

  function DataWords(p: Placed): seq<Word> {
    if p.v.values.Longs? then LongWords(p.v.values.longs) else p.texts
  }

  /** After the link come the address of the name, the highest subscript of an array, and the values. */
  function RecordRest(p: Placed): seq<Word> {
    [p.id] + (if p.v.isArray then [(Count(p.v) - 1) % 0x10000] else []) + DataWords(p)
  }

  function RecordWords(p: Placed, link: Word): seq<Word> {
    [link] + RecordRest(p)
  }

  function RecordSize(v: Var): nat {
    4 + (if v.isArray then 2 else 0) + if v.values.Longs? then 4 * |v.values.longs| else 2 * |v.values.texts|
  }

  ghost predicate TextsAt(mem: seq<Byte>, base: nat, addrs: seq<Word>, texts: seq<seq<Byte>>, high: nat) {
    |addrs| == |texts| && forall j :: 0 <= j < |addrs| ==> TextAt(mem, base, addrs[j], texts[j], high)
  }

  ghost predicate TextAt(mem: seq<Byte>, base: nat, addr: Word, bytes: seq<Byte>, high: nat) {
    base + high <= addr && Stored(mem, addr - base, WrittenText(bytes))
  }

  ghost predicate RecordAt(mem: seq<Byte>, base: nat, p: Placed, link: Word, low: nat, high: nat) {
    && p.name != [] && Counted(p.v)
    && base + PROGRAM <= p.addr && p.addr - base + RecordSize(p.v) <= low &&
      Stored(mem, p.addr - base, RecordWords(p, link))
    && base + high <= p.id && Stored(mem, p.id - base, p.name)
    && (p.v.values.Texts? ==> TextsAt(mem, base, p.texts, p.v.values.texts, high))
  }

  /** The records from this link on: every link is below the record it is in, and the last is 0. */
  ghost predicate Chain(mem: seq<Byte>, base: nat, link: Word, ps: seq<Placed>, low: nat, high: nat)
    decreases |ps|
  {
    if ps == [] then link == 0
    else
      && link == ps[0].addr && base <= link && link - base + 1 < |mem|
      && var next := Read(mem, link - base);
         next < link && RecordAt(mem, base, ps[0], next, low, high) && Chain(mem, base, next, ps[1..], low, high)
  }

  function SlotOf(first: Word): (s: nat)
    ensures s < SLOTS
  {
    first / 0x1000 % 4 * ENTRIES + first % 16
  }

  function Slot(p: Placed): (s: nat)
    requires p.name != []
    ensures s < SLOTS
  {
    SlotOf(p.name[0])
  }

  function TypeOf(v: Var): nat {
    (if v.values.Texts? then 2 else 0) + if v.isArray then 1 else 0
  }

  /** The words of the name are those of a name, and not of a keyword that has it. */
  predicate Proper(p: Placed) {
    Named(p.v) && p.name == NameWords(p.v.chars, p.v.values.Texts?, p.v.isArray)
  }

  lemma SlotType(p: Placed)
    requires Proper(p)
    ensures Slot(p) / ENTRIES == TypeOf(p.v)
  {
    hide SlotOf;
    var v := p.v;
    var second := if |v.chars| == 1 then 0 else v.chars[1];
    MarksRead(v.values.Texts?, v.isArray);
    WordOfName(v.chars[0], second, Marks(v.values.Texts?, v.isArray), |v.chars| > 2, p.name[0]);
    SlotBits(p.name[0]);
  }

  lemma SlotBits(first: Word)
    ensures SlotOf(first) / ENTRIES == 2 * (first / 0x2000 % 2) + first / 0x1000 % 2
  {
    assert first / 0x1000 / 2 == first / 0x2000;
  }

  ghost predicate ChainAt(mem: seq<Byte>, base: nat, ps: seq<Placed>, s: nat, low: nat, high: nat)
    requires s < SLOTS && |mem| >= PROGRAM
  {
    && Chain(mem, base, Read(mem, HASHTABLE + 2 * s), ps, low, high)
    && forall i :: 0 <= i < |ps| ==> ps[i].name != [] && Slot(ps[i]) == s
  }

  ghost predicate AllChains(mem: seq<Byte>, base: nat, chains: seq<seq<Placed>>, low: nat, high: nat) {
    |chains| == SLOTS && |mem| >= PROGRAM && forall s :: 0 <= s < SLOTS ==> ChainAt(mem, base, chains[s], s, low, high)
  }

  // ----- what changes elsewhere does not matter

  /** The same program, records, names and strings. */
  ghost predicate Agree(mem: seq<Byte>, now: seq<Byte>, low: nat, high: nat) {
    |mem| == |now| && forall i :: 0 <= i < |mem| && (PROGRAM <= i < low || high <= i) ==> mem[i] == now[i]
  }

  lemma AgreeStored(mem: seq<Byte>, now: seq<Byte>, low: nat, high: nat, addr: nat, ws: seq<Word>)
    requires Agree(mem, now, low, high) && Stored(mem, addr, ws) &&
             ((PROGRAM <= addr && addr + 2 * |ws| <= low) || high <= addr)
    ensures Stored(now, addr, ws)
  {
    forall i | 0 <= i < |ws|
      ensures Read(now, addr + 2 * i) == ws[i]
    {
      assert Read(mem, addr + 2 * i) == ws[i];
    }
  }

  lemma TextsKept(mem: seq<Byte>, now: seq<Byte>, base: nat, addrs: seq<Word>, texts: seq<seq<Byte>>,
                  low: nat, high: nat, high': nat)
    requires Agree(mem, now, low, high) && TextsAt(mem, base, addrs, texts, high) && high' <= high
    ensures TextsAt(now, base, addrs, texts, high')
  {
    hide Stored, Agree, WrittenText;
    forall j | 0 <= j < |addrs|
      ensures TextAt(now, base, addrs[j], texts[j], high')
    {
      assert TextAt(mem, base, addrs[j], texts[j], high);
      AgreeStored(mem, now, low, high, addrs[j] - base, WrittenText(texts[j]));
    }
  }

  lemma RecordLength(p: Placed, link: Word)
    requires p.v.values.Texts? ==> |p.texts| == |p.v.values.texts|
    ensures 2 * |RecordWords(p, link)| == RecordSize(p.v)
  {
  }

  lemma RecordKept(mem: seq<Byte>, now: seq<Byte>, base: nat, p: Placed, link: Word, low: nat, high: nat,
                   low': nat, high': nat)
    requires Agree(mem, now, low, high) && RecordAt(mem, base, p, link, low, high) && low <= low' && high' <= high
    ensures RecordAt(now, base, p, link, low', high')
  {
    hide Stored, Agree, RecordWords, RecordSize, TextAt;
    RecordLength(p, link);
    AgreeStored(mem, now, low, high, p.addr - base, RecordWords(p, link));
    AgreeStored(mem, now, low, high, p.id - base, p.name);
    if p.v.values.Texts? {
      TextsKept(mem, now, base, p.texts, p.v.values.texts, low, high, high');
    }
  }

  lemma AgreeRead(mem: seq<Byte>, now: seq<Byte>, low: nat, high: nat, addr: nat)
    requires Agree(mem, now, low, high) && PROGRAM <= addr && addr + 2 <= low && addr + 1 < |mem|
    ensures Read(now, addr) == Read(mem, addr)
  {
  }

  lemma {:induction false} ChainKept(mem: seq<Byte>, now: seq<Byte>, base: nat, link: Word, ps: seq<Placed>,
                                     low: nat, high: nat, low': nat, high': nat)
    requires Agree(mem, now, low, high) && Chain(mem, base, link, ps, low, high) && low <= low' && high' <= high
    ensures Chain(now, base, link, ps, low', high')
    decreases |ps|
  {
    hide Agree;
    if ps != [] {
      var next := Read(mem, link - base);
      assert base + PROGRAM <= link && link - base + 4 <= low && |mem| == |now| by {
        assert RecordAt(mem, base, ps[0], next, low, high);
        AgreeLength(mem, now, low, high);
      }
      hide RecordAt;
      AgreeRead(mem, now, low, high, link - base);
      RecordKept(mem, now, base, ps[0], next, low, high, low', high');
      ChainKept(mem, now, base, next, ps[1..], low, high, low', high');
    }
  }

  lemma AgreeLength(mem: seq<Byte>, now: seq<Byte>, low: nat, high: nat)
    requires Agree(mem, now, low, high)
    ensures |mem| == |now|
  {
  }

  /** A chain begins with nothing or with a record below the free space. */
  lemma ChainBelow(mem: seq<Byte>, base: nat, link: Word, ps: seq<Placed>, low: nat, high: nat)
    requires Chain(mem, base, link, ps, low, high)
    ensures link == 0 || link < base + low
  {
  }

  /** Putting a new record at the front of its chain leaves the other chains alone. */
  lemma ChainsLinked(mem: seq<Byte>, now: seq<Byte>, base: nat, chains: seq<seq<Placed>>, p: Placed, s: nat,
                     low: nat, high: nat, low': nat, high': nat)
    requires AllChains(mem, base, chains, low, high) && Agree(mem, now, low, high) && low <= low' && high' <= high
    requires s < SLOTS && p.name != [] && Slot(p) == s
    requires base + low <= p.addr && base + PROGRAM <= p.addr &&
             RecordAt(now, base, p, Read(mem, HASHTABLE + 2 * s), low', high') && p.addr - base + 1 < |now|
    requires Read(now, p.addr - base) == Read(mem, HASHTABLE + 2 * s)
    requires Read(now, HASHTABLE + 2 * s) == p.addr
    requires forall k :: 0 <= k < SLOTS && k != s ==> Read(now, HASHTABLE + 2 * k) == Read(mem, HASHTABLE + 2 * k)
    ensures AllChains(now, base, chains[s := [p] + chains[s]], low', high')
  {
    hide Agree, RecordAt, Slot, SlotOf, Read;
    AgreeLength(mem, now, low, high);
    var chains' := chains[s := [p] + chains[s]];
    forall k | 0 <= k < SLOTS
      ensures ChainAt(now, base, chains'[k], k, low', high')
    {
      var link := Read(mem, HASHTABLE + 2 * k);
      assert ChainAt(mem, base, chains[k], k, low, high);
      ChainKept(mem, now, base, link, chains[k], low, high, low', high');
      if k == s {
        ChainBelow(mem, base, link, chains[k], low, high);
        assert chains'[k][1..] == chains[k] && chains'[k][0] == p;
        assert Chain(now, base, p.addr, chains'[k], low', high');
      }
    }
  }

  // ----- listing

  /** A line of the listing: name with marks, address, place in its table, values. */
  datatype Listed = Listed(name: string, address: Word, entry: nat, values: Values)

  function ShownName(v: Var): string
    requires Named(v)
  {
    CodeText(v.chars) + (if v.values.Texts? then "$" else "") + if v.isArray then "()" else ""
  }

  function SignedAll(ns: seq<int>): seq<int> {
    seq(|ns|, i requires 0 <= i < |ns| => Signed(ns[i]))
  }

  function ShownTexts(texts: seq<seq<Byte>>): (shown: seq<seq<Byte>>) {
    seq(|texts|, i requires 0 <= i < |texts| => ShownText(texts[i]))
  }

  function ShownValues(values: Values): Values {
    if values.Longs? then Longs(SignedAll(values.longs)) else Texts(ShownTexts(values.texts))
  }

  function ListedAs(p: Placed): Listed
    requires Proper(p)
  {
    Listed(ShownName(p.v), p.addr, Slot(p) % ENTRIES, ShownValues(p.v.values))
  }

  predicate AllProper(ps: seq<Placed>) {
    forall i :: 0 <= i < |ps| ==> Proper(ps[i])
  }

  predicate AllOfSlots(chains: seq<seq<Placed>>) {
    forall s :: 0 <= s < |chains| ==> AllProper(chains[s])
  }

  function ListedChain(ps: seq<Placed>): seq<Listed>
    requires AllProper(ps)
  {
    seq(|ps|, i requires 0 <= i < |ps| => ListedAs(ps[i]))
  }

  /** Chains from one slot up to another. */
  function ListedSlots(chains: seq<seq<Placed>>, from: nat, to: nat): seq<Listed>
    requires from <= to <= |chains| && AllOfSlots(chains)
  {
    if from == to then [] else ListedSlots(chains, from, to - 1) + ListedChain(chains[to - 1])
  }
}
