/** Any run of imports: what every hash chain and every single letter then hold
    (scripts/old_testing/variables.py). */
module VariableRuns {
  import opened Primitives
  import opened Tokens
  import opened Lexer
  import opened Listing
  import opened Block
  import opened Records
  import opened Variables
  import opened Imports
  import opened VariableListing

  /** The slot of a variable whose name is read with a token table. */
  function SlotFor(table: seq<Entry>, v: Var): (s: nat)
    requires TableFits(table) && Named(v)
    ensures s < SLOTS
  {
    SlotOf(IdWords(table, v)[0])
  }

  /** The variables of a list that hang in a slot, newest first. */
  function ChainVars(table: seq<Entry>, vs: seq<Var>, s: nat): seq<Var>
    requires TableFits(table)
  {
    if vs == [] then []
    else
      var last, before := vs[|vs| - 1], ChainVars(table, vs[..|vs| - 1], s);
      if Named(last) && !IsFast(last) && SlotFor(table, last) == s then [last] + before else before
  }

  function VarsOf(ps: seq<Placed>): seq<Var> {
    seq(|ps|, i requires 0 <= i < |ps| => ps[i].v)
  }

  /** The value of a letter after a list of imports. */
  function FastAfter(vs: seq<Var>, letter: nat, initial: int): int {
    if vs == [] then initial
    else
      var last := vs[|vs| - 1];
      if IsFast(last) && last.chars[0] == letter + 1 then Signed(last.values.longs[0])
      else FastAfter(vs[..|vs| - 1], letter, initial)
  }

  /** The bytes a list of variables takes. */
  function Bytes(table: seq<Entry>, vs: seq<Var>): nat
    requires TableFits(table)
  {
    if vs == [] then 0
    else
      var last := vs[|vs| - 1];
      Bytes(table, vs[..|vs| - 1]) +
        if IsFast(last) || !Named(last) then 0 else RecordSize(last) + HighBytes(IdWords(table, last), last)
  }

  /** And how much of it is high memory. */
  function TopBytes(table: seq<Entry>, vs: seq<Var>): nat
    requires TableFits(table)
  {
    if vs == [] then 0
    else
      var last := vs[|vs| - 1];
      TopBytes(table, vs[..|vs| - 1]) +
        if IsFast(last) || !Named(last) then 0 else HighBytes(IdWords(table, last), last)
  }

  ghost predicate ChainsAre(table: seq<Entry>, chains: seq<seq<Placed>>, was: seq<seq<Placed>>, vs: seq<Var>)
    requires TableFits(table)
  {
    && |chains| == |was| == SLOTS
    && forall s :: 0 <= s < SLOTS ==> VarsOf(chains[s]) == ChainVars(table, vs, s) + VarsOf(was[s])
  }

  /** The name of a record is what the token table makes of the name of its variable. */
  predicate NamedBy(table: seq<Entry>, p: Placed)
    requires TableFits(table)
  {
    Named(p.v) && p.name == IdWords(table, p.v)
  }

  predicate ChainNamedBy(table: seq<Entry>, ps: seq<Placed>)
    requires TableFits(table)
  {
    forall i :: 0 <= i < |ps| ==> NamedBy(table, ps[i])
  }

  ghost predicate AllNamedBy(table: seq<Entry>, chains: seq<seq<Placed>>)
    requires TableFits(table)
  {
    forall s :: 0 <= s < |chains| ==> ChainNamedBy(table, chains[s])
  }

  lemma LinkedNamed(table: seq<Entry>, chains: seq<seq<Placed>>, p: Placed)
    requires TableFits(table) && |chains| == SLOTS && p.name != []
    requires AllNamedBy(table, chains) && NamedBy(table, p)
    ensures AllNamedBy(table, Linked(chains, p))
  {
    hide Slot, NamedBy;
    assert ChainNamedBy(table, chains[Slot(p)]);
  }

  ghost predicate LettersAre(mem: seq<Byte>, was: seq<Byte>, vs: seq<Var>) {
    |mem| == |was| && PROGRAM <= |mem|
    && forall letter :: 0 <= letter < LETTERS ==>
      LongAt(mem, FASTVARIABLES + 4 * letter) == FastAfter(vs, letter, LongAt(was, FASTVARIABLES + 4 * letter))
  }

  lemma {:induction false} BytesGrow(table: seq<Entry>, vs: seq<Var>, i: nat)
    requires TableFits(table) && i <= |vs|
    ensures Bytes(table, vs[..i]) <= Bytes(table, vs)
    decreases |vs|
  {
    if i == |vs| {
      assert vs[..i] == vs;
    } else {
      BytesGrow(table, vs[..|vs| - 1], i);
      assert vs[..|vs| - 1][..i] == vs[..i];
    }
  }

  lemma NothingRun(table: seq<Entry>, chains: seq<seq<Placed>>, mem: seq<Byte>)
    requires TableFits(table) && |chains| == SLOTS && PROGRAM <= |mem|
    ensures ChainsAre(table, chains, chains, []) && LettersAre(mem, mem, [])
    ensures Bytes(table, []) == 0 && TopBytes(table, []) == 0
  {
    forall s | 0 <= s < SLOTS
      ensures VarsOf(chains[s]) == ChainVars(table, [], s) + VarsOf(chains[s])
    {
    }
  }

  lemma LinkedRun(table: seq<Entry>, chains: seq<seq<Placed>>, was: seq<seq<Placed>>, vs: seq<Var>, p: Placed)
    requires TableFits(table) && ChainsAre(table, chains, was, vs) && !IsFast(p.v) && NamedBy(table, p) && p.name != []
    ensures ChainsAre(table, Linked(chains, p), was, vs + [p.v])
  {
    hide IsFast, SlotOf, Named, IdWords;
    var now, more := Linked(chains, p), vs + [p.v];
    assert more[..|vs|] == vs;
    forall s | 0 <= s < SLOTS
      ensures VarsOf(now[s]) == ChainVars(table, more, s) + VarsOf(was[s])
    {
      assert VarsOf(chains[s]) == ChainVars(table, vs, s) + VarsOf(was[s]);
      if s == Slot(p) {
        assert VarsOf([p] + chains[s]) == [p.v] + VarsOf(chains[s]);
        assert [p.v] + (ChainVars(table, vs, s) + VarsOf(was[s])) == [p.v] + ChainVars(table, vs, s) + VarsOf(was[s]);
      }
    }
  }

  lemma FastRun(table: seq<Entry>, chains: seq<seq<Placed>>, was: seq<seq<Placed>>, vs: seq<Var>, v: Var)
    requires TableFits(table) && ChainsAre(table, chains, was, vs) && IsFast(v)
    ensures ChainsAre(table, chains, was, vs + [v]) && Bytes(table, vs + [v]) == Bytes(table, vs)
    ensures TopBytes(table, vs + [v]) == TopBytes(table, vs)
  {
    hide IsFast;
    assert (vs + [v])[..|vs|] == vs;
    forall s | 0 <= s < SLOTS
      ensures ChainVars(table, vs + [v], s) == ChainVars(table, vs, s)
    {
    }
  }

  lemma SlowLetters(mem: seq<Byte>, now: seq<Byte>, was: seq<Byte>, vs: seq<Var>, v: Var)
    requires LettersAre(mem, was, vs) && SameFast(mem, now) && !IsFast(v)
    ensures LettersAre(now, was, vs + [v])
  {
    hide IsFast;
    assert (vs + [v])[..|vs|] == vs;
    forall letter | 0 <= letter < LETTERS
      ensures LongAt(now, FASTVARIABLES + 4 * letter) ==
              FastAfter(vs + [v], letter, LongAt(was, FASTVARIABLES + 4 * letter))
    {
      LetterKept(mem, now, letter);
    }
  }

  lemma LetterKept(mem: seq<Byte>, now: seq<Byte>, letter: nat)
    requires SameFast(mem, now) && letter < LETTERS && PROGRAM <= |mem|
    ensures LongAt(now, FASTVARIABLES + 4 * letter) == LongAt(mem, FASTVARIABLES + 4 * letter)
  {
  }

  lemma OtherLetter(mem: seq<Byte>, now: seq<Byte>, letter: nat, changed: nat)
    requires letter < LETTERS && changed < LETTERS && letter != changed && PROGRAM <= |mem|
    requires Elsewhere(mem, now, FASTVARIABLES + 4 * changed, FASTVARIABLES + 4 * changed + 4)
    ensures LongAt(now, FASTVARIABLES + 4 * letter) == LongAt(mem, FASTVARIABLES + 4 * letter)
  {
  }

  lemma FastLetters(mem: seq<Byte>, now: seq<Byte>, was: seq<Byte>, vs: seq<Var>, v: Var, changed: nat)
    requires LettersAre(mem, was, vs) && IsFast(v) && v.chars[0] == changed + 1 && changed < LETTERS
    requires Elsewhere(mem, now, FASTVARIABLES + 4 * changed, FASTVARIABLES + 4 * changed + 4) &&
             LongAt(now, FASTVARIABLES + 4 * changed) == Signed(v.values.longs[0])
    ensures LettersAre(now, was, vs + [v])
  {
    hide Signed, LongAt, Elsewhere;
    assert (vs + [v])[..|vs|] == vs;
    assert |now| == |mem| by {
      SameLength(mem, now, FASTVARIABLES + 4 * changed, FASTVARIABLES + 4 * changed + 4);
    }
    forall letter | 0 <= letter < LETTERS
      ensures LongAt(now, FASTVARIABLES + 4 * letter) ==
              FastAfter(vs + [v], letter, LongAt(was, FASTVARIABLES + 4 * letter))
    {
      if letter != changed {
        OtherLetter(mem, now, letter, changed);
      }
    }
  }

  lemma SameLength(mem: seq<Byte>, now: seq<Byte>, from: int, to: int)
    requires Elsewhere(mem, now, from, to)
    ensures |mem| == |now|
  {
  }

  lemma SlowBytes(table: seq<Entry>, vs: seq<Var>, v: Var)
    requires TableFits(table) && Named(v) && !IsFast(v)
    ensures Bytes(table, vs + [v]) == Bytes(table, vs) + RecordSize(v) + HighBytes(IdWords(table, v), v)
    ensures TopBytes(table, vs + [v]) == TopBytes(table, vs) + HighBytes(IdWords(table, v), v)
    ensures RecordSize(v) > 0
  {
    hide HighBytes;
    assert (vs + [v])[..|vs|] == vs;
  }

  /** Imports the variables one after another. They all go in exactly when there is room for them
      together; then every chain holds its variables, newest first, before those it had, and every
      letter its last value. */
  method ImportAll(varBlock: VariableBlock, vs: seq<Var>) returns (ok: bool)
    requires varBlock.Valid() && forall i :: 0 <= i < |vs| ==> Nameable(vs[i])
    modifies varBlock`chains, varBlock`order, varBlock.block`data, varBlock.block.tokeniser
    ensures var table := varBlock.block.tokeniser.tokens;
            ok == (Bytes(table, vs) == 0 ||
                   Bytes(table, vs) + SPARE < old(varBlock.block.High() - varBlock.block.Low()))
    ensures ok ==>
            var table := varBlock.block.tokeniser.tokens;
            && varBlock.Valid() && ChainsAre(table, varBlock.chains, old(varBlock.chains), vs)
            && (AllNamedBy(table, old(varBlock.chains)) ==> AllNamedBy(table, varBlock.chains))
            && LettersAre(varBlock.block.data, old(varBlock.block.data), vs)
            && varBlock.block.High() == old(varBlock.block.High()) - TopBytes(table, vs)
            && (old(varBlock.Packed()) ==> varBlock.Packed())
  {
    hide BasicBlock.Valid, VariableBlock.Valid, Nameable, ChainsAre, LettersAre, Bytes, SameFast, RecordSize, HighBytes,
      IsFast, Slot, SlotOf, Named, Elsewhere, Linked, LongAt, Signed, TableFits, AllNamedBy, IdWords, Read, TopBytes,
      VariableBlock.Packed, AllFit;
    ghost var was, before, gap, table := varBlock.block.data, varBlock.chains, 0, varBlock.block.tokeniser.tokens;
    InBounds(varBlock);
    gap := varBlock.block.High() - varBlock.block.Low();
    NothingRun(table, before, was);
    assert vs[..0] == [];
    for i := 0 to |vs|
      invariant varBlock.Valid() && ChainsAre(table, varBlock.chains, before, vs[..i]) &&
                LettersAre(varBlock.block.data, was, vs[..i])
      invariant AllNamedBy(table, before) ==> AllNamedBy(table, varBlock.chains)
      invariant |varBlock.block.data| == |was|
      invariant varBlock.block.High() - varBlock.block.Low() == gap - Bytes(table, vs[..i])
      invariant varBlock.block.High() == old(varBlock.block.High()) - TopBytes(table, vs[..i])
      invariant old(varBlock.Packed()) ==> varBlock.Packed()
      invariant Bytes(table, vs[..i]) == 0 || Bytes(table, vs[..i]) + SPARE < gap
    {
      ghost var mem, chains, done, v := varBlock.block.data, varBlock.chains, vs[..i], vs[i];
      assert vs[..i + 1] == done + [v];
      BytesGrow(table, vs, i + 1);
      InBounds(varBlock);
      NameableNamed(v);
      var variable := new Variable(vs[i]);
      ghost var p;
      ok, p := variable.ImportVariable(varBlock);
      if IsFast(vs[i]) {
        FastLetters(mem, varBlock.block.data, was, done, v, v.chars[0] - 1);
        FastRun(table, chains, before, done, v);
        PointersKept(mem, varBlock.block.data, FASTVARIABLES + 4 * (v.chars[0] - 1), FASTVARIABLES + 4 * v.chars[0]);
      } else {
        SlowBytes(table, done, v);
        if !ok {
          return;
        }
        LinkedRun(table, chains, before, done, p);
        if AllNamedBy(table, before) {
          LinkedNamed(table, chains, p);
        }
        SlowLetters(mem, varBlock.block.data, was, done, v);
        SameSize(mem, varBlock.block.data);
      }
    }
    assert vs[..|vs|] == vs;
    ok := true;
  }

  lemma SameSize(mem: seq<Byte>, now: seq<Byte>)
    requires SameFast(mem, now)
    ensures |mem| == |now|
  {
  }

  lemma InBounds(varBlock: VariableBlock)
    requires varBlock.Valid()
    ensures |varBlock.chains| == SLOTS && PROGRAM <= |varBlock.block.data| && HIGHPTR + 1 < PROGRAM
    ensures TableFits(varBlock.block.tokeniser.tokens) && AllFit(varBlock.block.lines)
  {
    SlotCount(varBlock);
    InOrder(varBlock.block);
  }

  lemma NameableNamed(v: Var)
    requires Nameable(v)
    ensures Named(v) && v.chars != [] && 1 <= v.chars[0] <= LETTERS
    ensures IsFast(v) ==> v.values.Longs? && |v.values.longs| == 1
  {
  }

  lemma PointersKept(mem: seq<Byte>, now: seq<Byte>, from: int, to: int)
    requires Elsewhere(mem, now, from, to) && FIRST_FREE <= from && PROGRAM <= |mem|
    ensures |mem| == |now| && Read(now, LOWPTR) == Read(mem, LOWPTR) && Read(now, HIGHPTR) == Read(mem, HIGHPTR)
  {
  }

  // ----- imported, then listed

  /** What a listing says of a variable, its address aside. */
  datatype Summary = Summary(name: string, entry: nat, values: Values)

  function ShownVar(v: Var): Summary {
    if Named(v) then
      Summary(ShownName(v), NameWords(v.chars, v.values.Texts?, v.isArray)[0] % ENTRIES, ShownValues(v.values))
    else Summary("", 0, v.values)
  }

  function ShownVars(vs: seq<Var>): seq<Summary> {
    seq(|vs|, i requires 0 <= i < |vs| => ShownVar(vs[i]))
  }

  function WithoutAddresses(out: seq<Listed>): seq<Summary> {
    seq(|out|, i requires 0 <= i < |out| => Summary(out[i].name, out[i].entry, out[i].values))
  }

  /** The variables of a list slot by slot, newest first in each. */
  function ShownSlots(table: seq<Entry>, vs: seq<Var>, n: nat): seq<Summary>
    requires TableFits(table)
  {
    if n == 0 then [] else ShownSlots(table, vs, n - 1) + ShownVars(ChainVars(table, vs, n - 1))
  }

  /** The letters whose last value is not zero. */
  function ShownLetters(vs: seq<Var>, n: nat): seq<FastListed> {
    if n == 0 then []
    else
      var value := FastAfter(vs, n - 1, 0);
      ShownLetters(vs, n - 1) + if value == 0 then [] else [FastListed(n - 1, value)]
  }

  lemma ChainShown(ps: seq<Placed>, vs: seq<Var>)
    requires AllProper(ps) && VarsOf(ps) == vs
    ensures WithoutAddresses(ListedChain(ps)) == ShownVars(vs)
  {
    hide ShownName, ShownValues, NameWords;
    forall i | 0 <= i < |ps|
      ensures WithoutAddresses(ListedChain(ps))[i] == ShownVars(vs)[i]
    {
      assert ps[i].v == VarsOf(ps)[i];
    }
  }

  lemma AddressesApart(a: seq<Listed>, b: seq<Listed>)
    ensures WithoutAddresses(a + b) == WithoutAddresses(a) + WithoutAddresses(b)
  {
  }

  lemma {:induction false} SlotsShown(table: seq<Entry>, chains: seq<seq<Placed>>, was: seq<seq<Placed>>, vs: seq<Var>,
                                      n: nat)
    requires TableFits(table) && ChainsAre(table, chains, was, vs) && AllOfSlots(chains) && n <= SLOTS
    requires forall s :: 0 <= s < SLOTS ==> was[s] == []
    ensures WithoutAddresses(ListedSlots(chains, 0, n)) == ShownSlots(table, vs, n)
    decreases n
  {
    hide WithoutAddresses, ShownVars, ListedChain, ListedAs;
    if n == 0 {
      NothingShown();
    } else {
      SlotsShown(table, chains, was, vs, n - 1);
      SlotNamed(chains, n - 1);
      assert VarsOf(chains[n - 1]) == ChainVars(table, vs, n - 1) + VarsOf(was[n - 1]);
      assert ChainVars(table, vs, n - 1) + [] == ChainVars(table, vs, n - 1);
      ChainShown(chains[n - 1], ChainVars(table, vs, n - 1));
      AddressesApart(ListedSlots(chains, 0, n - 1), ListedChain(chains[n - 1]));
    }
  }

  lemma {:induction false} ChainVarsIn(table: seq<Entry>, vs: seq<Var>, s: nat)
    requires TableFits(table)
    ensures forall v :: v in ChainVars(table, vs, s) ==> v in vs
    decreases |vs|
  {
    if vs != [] {
      ChainVarsIn(table, vs[..|vs| - 1], s);
    }
  }

  /** Where no keyword has the name of an imported variable the chains can be listed. */
  lemma AllListable(table: seq<Entry>, chains: seq<seq<Placed>>, was: seq<seq<Placed>>, vs: seq<Var>)
    requires TableReadable(table) && TableFits(table) && ChainsAre(table, chains, was, vs) && AllNamedBy(table, chains)
    requires forall s :: 0 <= s < SLOTS ==> was[s] == []
    requires forall v :: v in vs ==> Named(v) && NoKeyword(table, v)
    ensures AllOfSlots(chains)
  {
    hide NoKeyword, IdWords, NameWords, TableReadable, Named;
    forall s | 0 <= s < SLOTS
      ensures AllProper(chains[s])
    {
      ChainVarsIn(table, vs, s);
      assert VarsOf(chains[s]) == ChainVars(table, vs, s) + VarsOf(was[s]) && ChainNamedBy(table, chains[s]);
      forall i | 0 <= i < |chains[s]|
        ensures Proper(chains[s][i])
      {
        var p := chains[s][i];
        assert NamedBy(table, p) && p.v == VarsOf(chains[s])[i] && p.v in ChainVars(table, vs, s);
        NamesExactly(table, p.v);
      }
    }
  }

  lemma NothingShown()
    ensures WithoutAddresses([]) == []
  {
  }

  lemma {:induction false} LettersShown(varBlock: VariableBlock, was: seq<Byte>, vs: seq<Var>, n: nat)
    requires n <= LETTERS && LettersAre(varBlock.block.data, was, vs)
    requires forall letter :: 0 <= letter < LETTERS ==> LongAt(was, FASTVARIABLES + 4 * letter) == 0
    ensures NonZero(varBlock, n) == ShownLetters(vs, n)
    decreases n
  {
    hide LongAt, FastAfter;
    if n > 0 {
      LettersShown(varBlock, was, vs, n - 1);
      assert LongAt(varBlock.block.data, FASTVARIABLES + 4 * (n - 1)) ==
        FastAfter(vs, n - 1, LongAt(was, FASTVARIABLES + 4 * (n - 1)));
    }
  }

  lemma ClearedLetters(mem: seq<Byte>)
    requires PROGRAM <= |mem| && forall i :: FASTVARIABLES <= i < HASHTABLE ==> mem[i] == 0
    ensures forall letter :: 0 <= letter < LETTERS ==> LongAt(mem, FASTVARIABLES + 4 * letter) == 0
  {
  }

  /** From cleared tables, importing any list of variables that fits and listing them gives, in every slot,
      exactly the names and types that were imported with what is shown of their values, newest first, and of
      every letter its last value when it is not zero. */
  method ImportAndList(block: BasicBlock, vs: seq<Var>) returns (ok: bool, fast: seq<FastListed>, out: seq<Listed>)
    requires block.Valid() && forall i :: FASTVARIABLES <= i < HASHTABLE + 2 * SLOTS ==> block.data[i] == 0
    requires forall v :: v in vs ==> Nameable(v) && NoKeyword(block.tokeniser.tokens, v)
    modifies block`data, block.tokeniser
    ensures var table := block.tokeniser.tokens;
            ok == (Bytes(table, vs) == 0 || Bytes(table, vs) + SPARE < old(block.High() - block.Low()))
    ensures ok ==> fast == ShownLetters(vs, LETTERS)
    ensures ok ==> WithoutAddresses(out) == ShownSlots(block.tokeniser.tokens, vs, SLOTS)
  {
    ghost var was, table := block.data, block.tokeniser.tokens;
    InOrder(block);
    ClearedLetters(was);
    var varBlock := new VariableBlock(block);
    ghost var before := varBlock.chains;
    hide BasicBlock.Valid, VariableBlock.Valid, Nameable, NoKeyword, ChainsAre, LettersAre, Bytes, LongAt, NonZero,
      ListedSlots, AllOfSlots, WithoutAddresses, ShownSlots, ShownLetters, Read;
    fast, out := [], [];
    ok := ImportAll(varBlock, vs);
    if ok {
      AllListable(table, varBlock.chains, before, vs);
      fast, out := ListVariables(varBlock);
      LettersShown(varBlock, was, vs, LETTERS);
      SlotsShown(table, varBlock.chains, before, vs, SLOTS);
    }
  }
}
