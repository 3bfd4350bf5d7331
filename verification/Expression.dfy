/** The explicit-stack precedence climber (documents/expression.py), proved against the
    textbook reading: split at the rightmost operator of lowest precedence. */
module Expression {
  import opened Primitives

  /** A source element: the text is split into numbers and operators. */
  datatype Token = Num(n: int) | Operator(op: char)

  /** The operator table. `arith` stands for every operator but the indirection, which
      yields an address that is looked up only when the result is used. */
  datatype Table = Table(precedence: map<char, int>, indirect: char, arith: (char, int, int) -> int)

  /** The program's [value, isConstant] pair. */
  datatype Value = Value(v: int, constant: bool)

  /** The addresses looked up, latest last. */
  datatype Log = Nothing | Then(earlier: Log, address: int) {
    function Count(): nat {
      if Nothing? then 0 else earlier.Count() + 1
    }
  }

  /** [value, minimum level, pending operator] */
  datatype Frame = Frame(value: Value, level: int, op: Option<char>)

  /** The table the program installs. */
  function ProgramTable(arith: (char, int, int) -> int): (t: Table)
    ensures Usable(t)
  {
    Table(map['+' := 2, '-' := 2, '*' := 3, '/' := 3, '!' := 4, '^' := 1, '|' := 1, '&' := 1], '!', arith)
  }

  /** Evaluation starts at level 1, so an operator below 1 would never be reached. */
  ghost predicate Usable(t: Table) {
    forall op :: op in t.precedence ==> t.precedence[op] >= 1
  }

  predicate Known(t: Table, tok: Token) {
    tok.Operator? && tok.op in t.precedence
  }

  function Level(t: Table, tok: Token): int
    requires Known(t, tok)
  {
    t.precedence[tok.op]
  }

  /** Numbers sit at the even positions of a source, operators between them. */
  function NumberAt(toks: seq<Token>, j: nat): Token
    requires 2 * j < |toks|
  {
    toks[2 * j]
  }

  function OperatorAt(toks: seq<Token>, j: nat): Token
    requires 2 * j + 1 < |toks|
  {
    toks[2 * j + 1]
  }

  /** Number a, operator a, number a+1, ..., number b. */
  ghost predicate WellFormed(t: Table, toks: seq<Token>, a: nat, b: nat) {
    && a <= b && 2 * b < |toks|
    && (forall j :: a <= j <= b ==> NumberAt(toks, j).Num?)
    && (forall j :: a <= j < b ==> Known(t, OperatorAt(toks, j)))
  }

  ghost predicate WellFormedSource(t: Table, toks: seq<Token>) {
    |toks| % 2 == 1 && WellFormed(t, toks, 0, |toks| / 2)
  }

  ghost predicate AllAtLeast(t: Table, toks: seq<Token>, a: nat, b: nat, level: int) {
    && 2 * b < |toks|
    && forall j :: a <= j < b ==> Known(t, OperatorAt(toks, j)) && Level(t, OperatorAt(toks, j)) >= level
  }

  // ----- what an expression means

  /** Operator k is the rightmost of the operators of lowest precedence. */
  ghost predicate IsSplit(t: Table, toks: seq<Token>, a: nat, b: nat, k: nat) {
    && a <= k < b && 2 * b < |toks| && Known(t, OperatorAt(toks, k))
    && AllAtLeast(t, toks, a, k, Level(t, OperatorAt(toks, k)))
    && AllAtLeast(t, toks, k + 1, b, Level(t, OperatorAt(toks, k)) + 1)
  }

  ghost function SplitPoint(t: Table, toks: seq<Token>, a: nat, b: nat): (k: nat)
    requires WellFormed(t, toks, a, b) && a < b
    ensures a <= k < b
    decreases b - a
  {
    if b == a + 1 then a
    else
      var k := SplitPoint(t, toks, a, b - 1);
      if Level(t, OperatorAt(toks, b - 1)) <= Level(t, OperatorAt(toks, k)) then b - 1 else k
  }

  lemma {:induction false} SplitPointSplits(t: Table, toks: seq<Token>, a: nat, b: nat)
    requires WellFormed(t, toks, a, b) && a < b
    ensures IsSplit(t, toks, a, b, SplitPoint(t, toks, a, b))
    decreases b - a
  {
    if b > a + 1 {
      SplitPointSplits(t, toks, a, b - 1);
    }
  }

  lemma SplitUnique(t: Table, toks: seq<Token>, a: nat, b: nat, j: nat, k: nat)
    requires IsSplit(t, toks, a, b, j) && IsSplit(t, toks, a, b, k)
    ensures j == k
  {
    assert Known(t, OperatorAt(toks, j)) && Known(t, OperatorAt(toks, k));
  }

  function Looked(cells: int -> int, value: Value): int {
    if value.constant then value.v else cells(value.v)
  }

  /** A reference used as an operand is read; a plain value is not. */
  function Logged(log: Log, value: Value): Log {
    if value.constant then log else Then(log, value.v)
  }

  lemma LoggedCount(log: Log, value: Value)
    ensures Logged(log, value).Count() == log.Count() + if value.constant then 0 else 1
  {
  }

  function Combine(t: Table, cells: int -> int, l: Value, r: Value, op: char): Value {
    var x, y := Looked(cells, l), Looked(cells, r);
    if op == t.indirect then Value(x + y, false) else Value(t.arith(op, x, y), true)
  }

  /** Value of the expression from number a to number b; `log` gains the addresses read, in order. */
  ghost function Meaning(t: Table, cells: int -> int, toks: seq<Token>, a: nat, b: nat, log: Log): (Value, Log)
    requires WellFormed(t, toks, a, b)
    decreases b - a
  {
    if a == b then (Value(NumberAt(toks, a).n, true), log)
    else
      var k := SplitPoint(t, toks, a, b);
      var (l, log1) := Meaning(t, cells, toks, a, k, log);
      var (r, log2) := Meaning(t, cells, toks, k + 1, b, log1);
      (Combine(t, cells, l, r, OperatorAt(toks, k).op), Logged(Logged(log2, l), r))
  }

  /** How many of the operators a up to b are indirections. */
  function CountIndirect(t: Table, toks: seq<Token>, a: nat, b: nat): nat
    requires a <= b && 2 * b < |toks|
    decreases b - a
  {
    if a == b then 0
    else (if OperatorAt(toks, a) == Operator(t.indirect) then 1 else 0) + CountIndirect(t, toks, a + 1, b)
  }

  lemma {:induction false} CountAround(t: Table, toks: seq<Token>, a: nat, k: nat, b: nat)
    requires a <= k <= b && 2 * b < |toks|
    ensures CountIndirect(t, toks, a, b) == CountIndirect(t, toks, a, k) + CountIndirect(t, toks, k, b)
    decreases k - a
  {
    if a < k {
      CountAround(t, toks, a + 1, k, b);
    }
  }

  lemma CountAt(t: Table, toks: seq<Token>, a: nat, k: nat, b: nat)
    requires a <= k < b && 2 * b < |toks| && Known(t, OperatorAt(toks, k))
    ensures CountIndirect(t, toks, a, b) ==
              CountIndirect(t, toks, a, k) + (if OperatorAt(toks, k).op == t.indirect then 1 else 0) +
                CountIndirect(t, toks, k + 1, b)
  {
    CountAround(t, toks, a, k, b);
  }

  /** Addresses read, counting the one that using the result would read. */
  ghost function Total(value: Value, log: Log): nat {
    log.Count() + if value.constant then 0 else 1
  }

  lemma CombineTotal(t: Table, cells: int -> int, l: Value, r: Value, op: char, log: Log)
    ensures Total(Combine(t, cells, l, r, op), Logged(Logged(log, l), r))
         == Total(r, log) + (if l.constant then 0 else 1) + (if op == t.indirect then 1 else 0)
  {
    LoggedCount(log, l);
    LoggedCount(Logged(log, l), r);
  }

  /** The split, spelled out. */
  lemma MeaningSplits(t: Table, cells: int -> int, toks: seq<Token>, a: nat, b: nat, log: Log)
      returns (k: nat, l: Value, log1: Log, r: Value, log2: Log)
    requires WellFormed(t, toks, a, b) && a < b
    ensures a <= k < b && WellFormed(t, toks, a, k) && Known(t, OperatorAt(toks, k)) && WellFormed(t, toks, k + 1, b)
    ensures Meaning(t, cells, toks, a, k, log) == (l, log1)
    ensures Meaning(t, cells, toks, k + 1, b, log1) == (r, log2)
    ensures Meaning(t, cells, toks, a, b, log) ==
            (Combine(t, cells, l, r, OperatorAt(toks, k).op), Logged(Logged(log2, l), r))
  {
    k := SplitPoint(t, toks, a, b);
    var left := Meaning(t, cells, toks, a, k, log);
    l, log1 := left.0, left.1;
    var right := Meaning(t, cells, toks, k + 1, b, log1);
    r, log2 := right.0, right.1;
  }

  /** Every indirection is read exactly once, at its use; an unused one is still a reference. */
  lemma {:induction false} EachReferenceReadOnce(t: Table, cells: int -> int, toks: seq<Token>, a: nat,
                                                 b: nat, log: Log,
                                                 value: Value, after: Log)
    requires WellFormed(t, toks, a, b) && Meaning(t, cells, toks, a, b, log) == (value, after)
    ensures Total(value, after) == log.Count() + CountIndirect(t, toks, a, b)
    decreases b - a
  {
    if a < b {
      var k, l, log1, r, log2 := MeaningSplits(t, cells, toks, a, b, log);
      EachReferenceReadOnce(t, cells, toks, a, k, log, l, log1);
      EachReferenceReadOnce(t, cells, toks, k + 1, b, log1, r, log2);
      CombineTotal(t, cells, l, r, OperatorAt(toks, k).op, log2);
      CountAt(t, toks, a, k, b);
    }
  }

  // ----- precedence climbing as a function

  /** The last number consumed, with the value and the addresses read so far. */
  datatype Climbed = Stuck | Climbed(value: Value, last: nat, log: Log)

  /** Number a, then every operator of at least this level with its right operand. */
  function Climb(t: Table, cells: int -> int, level: int, toks: seq<Token>, a: nat, log: Log): (r: Climbed)
    requires 2 * a <= |toks| + 1
    ensures r.Climbed? ==> a <= r.last && 2 * r.last < |toks|
    decreases |toks| - 2 * a + 1, 1
  {
    if 2 * a >= |toks| || !NumberAt(toks, a).Num? then Stuck
    else ClimbOn(t, cells, level, Value(NumberAt(toks, a).n, true), toks, a, log)
  }

  function ClimbOn(t: Table, cells: int -> int, level: int, l: Value, toks: seq<Token>, k: nat, log: Log): (r: Climbed)
    requires 2 * k < |toks|
    ensures r.Climbed? ==> k <= r.last && 2 * r.last < |toks|
    decreases |toks| - 2 * k, 0
  {
    if 2 * k + 1 == |toks| then Climbed(l, k, log)
    else
      var o := OperatorAt(toks, k);
      if !Known(t, o) then Stuck
      else if Level(t, o) < level then Climbed(l, k, log)
      else
        match Climb(t, cells, Level(t, o) + 1, toks, k + 1, log)
        case Stuck => Stuck
        case Climbed(r, last, log1) =>
          ClimbOn(t, cells, level, Combine(t, cells, l, r, o.op), toks, last, Logged(Logged(log1, l), r))
  }

  /** Numbers a to b form an expression of at least the given level, and this is its outcome. */
  ghost predicate Evaluated(t: Table, cells: int -> int, level: int, toks: seq<Token>, a: nat, b: nat,
                            log: Log, value: Value, after: Log)
  {
    && WellFormed(t, toks, a, b) && AllAtLeast(t, toks, a, b, level)
    && Meaning(t, cells, toks, a, b, log) == (value, after)
  }

  /** The operator after number k, if it is there and reaches the level. */
  predicate InReach(t: Table, level: int, toks: seq<Token>, k: nat) {
    2 * k + 1 < |toks| && Known(t, OperatorAt(toks, k)) && Level(t, OperatorAt(toks, k)) >= level
  }

  /** What climbing must deliver: the longest prefix whose operators reach the level, and its meaning. */
  ghost predicate Delivers(t: Table, cells: int -> int, level: int, toks: seq<Token>, a: nat, log: Log, r: Climbed) {
    match r
    case Stuck => |toks| % 2 == 1 ==> !WellFormed(t, toks, a, |toks| / 2)
    case Climbed(value, last, after) =>
      && Evaluated(t, cells, level, toks, a, last, log, value, after)
      && (2 * last + 1 < |toks| ==> Known(t, OperatorAt(toks, last)) && Level(t, OperatorAt(toks, last)) < level)
  }

  /** Left operand no looser than the operator, right operand tighter: this is where an expression splits. */
  lemma JoinSplits(t: Table, cells: int -> int, toks: seq<Token>, level: int, a: nat, k: nat, b: nat,
                   log: Log, l: Value, log1: Log, r: Value, log2: Log)
    requires InReach(t, level, toks, k)
    requires Evaluated(t, cells, level, toks, a, k, log, l, log1)
    requires AllAtLeast(t, toks, a, k, Level(t, OperatorAt(toks, k)))
    requires Evaluated(t, cells, Level(t, OperatorAt(toks, k)) + 1, toks, k + 1, b, log1, r, log2)
    ensures Evaluated(t, cells, level, toks, a, b, log, Combine(t, cells, l, r, OperatorAt(toks, k).op),
            Logged(Logged(log2, l), r))
    ensures AllAtLeast(t, toks, a, b, Level(t, OperatorAt(toks, k)))
  {
    hide SplitPoint, Combine;
    assert IsSplit(t, toks, a, b, k);
    SplitPointSplits(t, toks, a, b);
    SplitUnique(t, toks, a, b, SplitPoint(t, toks, a, b), k);
  }

  lemma {:induction false} ClimbDelivers(t: Table, cells: int -> int, level: int, toks: seq<Token>, a: nat, log: Log)
    requires 2 * a <= |toks| + 1
    ensures Delivers(t, cells, level, toks, a, log, Climb(t, cells, level, toks, a, log))
    decreases |toks| - 2 * a + 1, 1
  {
    if 2 * a < |toks| && NumberAt(toks, a).Num? {
      ClimbOnDelivers(t, cells, level, toks, a, a, log, Value(NumberAt(toks, a).n, true), log);
    }
  }

  lemma {:induction false} ClimbOnDelivers(t: Table, cells: int -> int, level: int, toks: seq<Token>,
                                           a: nat, k: nat, log: Log, l: Value, log1: Log)
    requires Evaluated(t, cells, level, toks, a, k, log, l, log1)
    requires InReach(t, level, toks, k) ==> AllAtLeast(t, toks, a, k, Level(t, OperatorAt(toks, k)))
    ensures Delivers(t, cells, level, toks, a, log, ClimbOn(t, cells, level, l, toks, k, log1))
    decreases |toks| - 2 * k, 0
  {
    hide Meaning, Combine;
    if InReach(t, level, toks, k) {
      var o := OperatorAt(toks, k);
      ClimbDelivers(t, cells, Level(t, o) + 1, toks, k + 1, log1);
      match Climb(t, cells, Level(t, o) + 1, toks, k + 1, log1)
      case Stuck =>
      case Climbed(r, last, log2) =>
        JoinSplits(t, cells, toks, level, a, k, last, log, l, log1, r, log2);
        ClimbOnDelivers(t, cells, level, toks, a, last, log, Combine(t, cells, l, r, o.op), Logged(Logged(log2, l), r));
    }
  }

  /** The climb one operator further on. */
  lemma Unroll(t: Table, cells: int -> int, level: int, l: Value, toks: seq<Token>, k: nat, log: Log)
    requires InReach(t, level, toks, k)
    ensures var o := OperatorAt(toks, k);
            var right := Climb(t, cells, Level(t, o) + 1, toks, k + 1, log);
            ClimbOn(t, cells, level, l, toks, k, log) ==
              if right.Stuck? then Stuck
              else ClimbOn(t, cells, level, Combine(t, cells, l, right.value, o.op), toks, right.last,
                           Logged(Logged(right.log, l), right.value))
  {
  }

  /** Level 1 stops only at the end of the source. */
  lemma EverythingUsed(t: Table, cells: int -> int, toks: seq<Token>, log: Log)
    requires Usable(t)
    ensures WellFormedSource(t, toks) <==> Climb(t, cells, 1, toks, 0, log).Climbed?
    ensures WellFormedSource(t, toks) ==>
              var (value, after) := Meaning(t, cells, toks, 0, |toks| / 2, log);
              Climb(t, cells, 1, toks, 0, log) == Climbed(value, |toks| / 2, after)
  {
    ClimbDelivers(t, cells, 1, toks, 0, log);
  }

  // ----- the program's own operators

  /** Of two operators the right one is done first exactly when it binds tighter. */
  lemma ThreeNumbers(t: Table, cells: int -> int, toks: seq<Token>, log: Log, x: Value, y: Value, z: Value)
    requires |toks| == 5 && WellFormedSource(t, toks)
    requires x == Value(NumberAt(toks, 0).n, true) && y == Value(NumberAt(toks, 1).n, true)
    requires z == Value(NumberAt(toks, 2).n, true)
    ensures var first, second := OperatorAt(toks, 0), OperatorAt(toks, 1);
            Meaning(t, cells, toks, 0, 2, log).0 ==
            if Level(t, second) > Level(t, first) then
              Combine(t, cells, x, Combine(t, cells, y, z, second.op), first.op)
            else Combine(t, cells, Combine(t, cells, x, y, first.op), z, second.op)
  {
    var k := if Level(t, OperatorAt(toks, 1)) > Level(t, OperatorAt(toks, 0)) then 0 else 1;
    assert IsSplit(t, toks, 0, 2, k);
    SplitPointSplits(t, toks, 0, 2);
    SplitUnique(t, toks, 0, 2, SplitPoint(t, toks, 0, 2), k);
    assert Meaning(t, cells, toks, 0, 1, log).0 == Combine(t, cells, x, y, OperatorAt(toks, 0).op);
    assert Meaning(t, cells, toks, 1, 2, log).0 == Combine(t, cells, y, z, OperatorAt(toks, 1).op);
  }

  // ----- the evaluator

  class Evaluator {
    const table: Table
    const cells: int -> int
    var stack: seq<Frame>
    var source: seq<Token>
    /** the whole expression, and every address looked up so far */
    ghost const program: seq<Token>
    ghost var log: Log

    /** The source is what is left of the expression. */
    ghost predicate Valid()
      reads this`source
    {
      && |source| <= |program|
      && forall i {:trigger Left(i)} :: Left(i) && 0 <= i < |source| ==> source[i] == program[|program| - |source| + i]
    }

    /** Only directs the instantiation of the quantifier in Valid. */
    ghost predicate Left(i: int) {
      true
    }

    /** `a` numbers and as many operators are gone; the next is a number. */
    ghost predicate AtNumber(a: nat)
      reads this`source
    {
      Valid() && |program| - |source| == 2 * a
    }

    /** Number k is the last element gone; the next is an operator. */
    ghost predicate AfterNumber(k: nat)
      reads this`source
    {
      Valid() && |program| - |source| == 2 * k + 1
    }

    lemma Front()
      requires Valid() && source != []
      ensures source[0] == program[|program| - |source|]
    {
      assert Left(0);
    }

    constructor (table: Table, cells: int -> int, source: seq<Token>)
      ensures this.table == table && this.cells == cells && program == source
      ensures AtNumber(0) && this.source == source && stack == [] && log == Nothing
    {
      this.table, this.cells, this.source, program := table, cells, source, source;
      stack, log := [], Nothing;
    }

    /** Drop the front of the source. */
    method Advance()
      requires Valid() && source != []
      modifies this`source
      ensures Valid() && |source| == |old(source)| - 1
    {
      source := source[1..];
      forall i | Left(i) && 0 <= i < |source|
        ensures source[i] == program[|program| - |source| + i]
      {
        assert Left(i + 1) && source[i] == old(source)[i + 1];
      }
    }

    /** Push the number at the front of the source; fails as Python's int() and indexing do. */
    method GetAtom() returns (ok: bool)
      requires Valid()
      modifies this`stack, this`source
      ensures ok <==> old(source) != [] && old(source)[0].Num?
      ensures ok ==> stack == old(stack) + [Frame(Value(old(source)[0].n, true), 0, None)]
      ensures ok ==> Valid() && |source| == |old(source)| - 1
    {
      if source == [] || !source[0].Num? {
        return false;
      }
      stack := stack + [Frame(Value(source[0].n, true), 0, None)];
      Advance();
      return true;
    }

    method ToValue(value: Value) returns (v: Value)
      modifies this`log
      ensures v == Value(Looked(cells, value), true)
      ensures log == Logged(old(log), value)
    {
      if value.constant {
        return value;
      }
      log := Then(log, value.v);
      return Value(cells(value.v), true);
    }

    method Calculate(l: Value, r: Value, op: char) returns (v: Value)
      modifies this`log
      ensures v == Combine(table, cells, l, r, op)
      ensures log == Logged(Logged(old(log), l), r)
    {
      var x := ToValue(l);
      var y := ToValue(r);
      if op == table.indirect {
        return Value(x.v + y.v, false);
      }
      return Value(table.arith(op, x.v, y.v), true);
    }

    /** Combine the two top frames into the lower one and drop the upper. */
    method Reduce(ghost below: seq<Frame>, ghost l: Frame, ghost r: Frame)
      requires stack == below + [l] + [r] && l.op.Some?
      modifies this`stack, this`log
      ensures stack == below + [l.(value := Combine(table, cells, l.value, r.value, l.op.value))]
      ensures log == Logged(Logged(old(log), l.value), r.value)
    {
      var top := |stack| - 1;
      var v := Calculate(stack[top - 1].value, stack[top].value, stack[top - 1].op.value);
      stack := stack[top - 1 := stack[top - 1].(value := v)];
      stack := stack[..top];
    }

    /** One turn of the loop below: the operator, its right operand, and the calculation. */
    method ApplyOperator(ghost below: seq<Frame>, ghost top: Frame, ghost k: nat)
      returns (ok: bool, ghost newTop: Frame, ghost last: nat)
      requires AfterNumber(k) && source != [] && Known(table, source[0]) && Level(table, source[0]) >= top.level
      requires stack == below + [top]
      modifies this
      decreases |source|, 0
      ensures !ok ==> ClimbOn(table, cells, top.level, top.value, program, k, old(log)).Stuck?
      ensures ok ==> AfterNumber(last) && |source| < |old(source)|
      ensures ok ==> stack == below + [newTop] && newTop.level == top.level
      ensures ok ==> ClimbOn(table, cells, top.level, newTop.value, program, last, log) ==
                     ClimbOn(table, cells, top.level, top.value, program, k, old(log))
    {
      Front();
      Unroll(table, cells, top.level, top.value, program, k, log);
      newTop := top.(op := Some(source[0].op));
      stack := stack[|stack| - 1 := stack[|stack| - 1].(op := Some(source[0].op))];
      Advance();
      assert stack == below + [newTop];
      ghost var r;
      ok, r, last := EvaluateLevel(table.precedence[stack[|stack| - 1].op.value] + 1, k + 1);
      if ok {
        Reduce(below, newTop, r);
        newTop := newTop.(value := Combine(table, cells, top.value, r.value, newTop.op.value));
      }
    }

    /** One level of the climb; it leaves exactly one more frame on the stack. */
    method EvaluateLevel(level: int, ghost a: nat) returns (ok: bool, ghost top: Frame, ghost last: nat)
      requires AtNumber(a)
      modifies this
      decreases |source|, 1
      ensures ok <==> Climb(table, cells, level, program, a, old(log)).Climbed?
      ensures ok ==> Climb(table, cells, level, program, a, old(log)) == Climbed(top.value, last, log)
      ensures ok ==> stack == old(stack) + [top] && AfterNumber(last) && |source| < |old(source)|
    {
      ghost var goal := Climb(table, cells, level, program, a, log);
      top, last := Frame(Value(0, true), level, None), a;
      if source != [] {
        Front();
      }
      ok := GetAtom();
      if !ok {
        return;
      }
      top := Frame(Value(old(source)[0].n, true), level, None);
      stack := stack[|stack| - 1 := stack[|stack| - 1].(level := level)];
      while source != [] && Known(table, source[0]) && Level(table, source[0]) >= stack[|stack| - 1].level
        invariant AfterNumber(last) && |source| < |old(source)|
        invariant stack == old(stack) + [top] && top.level == level
        invariant ClimbOn(table, cells, level, top.value, program, last, log) == goal
        decreases |source|
      {
        ok, top, last := ApplyOperator(old(stack), top, last);
        if !ok {
          return;
        }
      }
      if source != [] {
        Front();
        if !Known(table, source[0]) {
          ok := false;
        }
      }
    }

    /** Evaluate everything. Fails exactly on sources that are not number (operator number)*;
        otherwise all of the source is used, the answer is what the grammar says, and each
        indirection has been looked up once. */
    method EvaluateCode() returns (ok: bool, answer: int)
      requires Usable(table) && AtNumber(0)
      modifies this
      ensures ok <==> WellFormedSource(table, program)
      ensures ok ==> source == [] && |stack| == 1
      ensures ok ==> var (value, after) := Meaning(table, cells, program, 0, |program| / 2, old(log));
                     answer == Looked(cells, value) && log == Logged(after, value)
      ensures ok ==> log.Count() == old(log).Count() + CountIndirect(table, program, 0, |program| / 2)
    {
      answer := 0;
      stack := [];
      ghost var top, last;
      EverythingUsed(table, cells, program, log);
      ok, top, last := EvaluateLevel(1, 0);
      if ok {
        EachReferenceReadOnce(table, cells, program, 0, |program| / 2, old(log), top.value, log);
        LoggedCount(log, top.value);
        var v := ToValue(stack[|stack| - 1].value);
        answer := v.v;
      }
    }
  }

  /** The program's operators in their classes, from the loosest to the tightest. */
  const CLASSES: seq<string> := ["^|&", "+-", "*/", "!"]

  /** The class of an operator; there are as many as classes for any other character. */
  function ClassOf(op: char): (c: nat)
    ensures c < 4 ==> op in CLASSES[c]
    ensures c >= 4 ==> forall i :: 0 <= i < 4 ==> op !in CLASSES[i]
  {
    if op in CLASSES[0] then 0 else if op in CLASSES[1] then 1 else if op in CLASSES[2] then 2
    else if op in CLASSES[3] then 3 else 4
  }

  lemma ClassesAreLevels(arith: (char, int, int) -> int, op: char)
    ensures op in ProgramTable(arith).precedence <==> ClassOf(op) < 4
    ensures op in ProgramTable(arith).precedence ==> ProgramTable(arith).precedence[op] == ClassOf(op) + 1
  {
  }

  /** What an operator makes of two values: ! adds them to an address, the others compute. */
  function Applied(arith: (char, int, int) -> int, cells: int -> int, op: char, l: Value, r: Value): Value {
    if op == '!' then Value(Looked(cells, l) + Looked(cells, r), false)
    else Value(arith(op, Looked(cells, l), Looked(cells, r)), true)
  }

  /** Numbers with operators of the program between them. */
  ghost predicate Expressible(source: seq<Token>) {
    && |source| % 2 == 1
    && (forall i :: 0 <= i < |source| && i % 2 == 0 ==> source[i].Num?)
    && (forall i :: 0 <= i < |source| && i % 2 == 1 ==> source[i].Operator? && ClassOf(source[i].op) < 4)
  }

  lemma ExpressibleExactly(arith: (char, int, int) -> int, source: seq<Token>)
    ensures Expressible(source) <==> WellFormedSource(ProgramTable(arith), source)
  {
    var t := ProgramTable(arith);
    hide ProgramTable, ClassOf;
    forall op
      ensures op in t.precedence <==> ClassOf(op) < 4
    {
      ClassesAreLevels(arith, op);
    }
    if WellFormedSource(t, source) {
      forall i | 0 <= i < |source|
        ensures if i % 2 == 0 then source[i].Num? else source[i].Operator? && ClassOf(source[i].op) < 4
      {
        assert if i % 2 == 0 then NumberAt(source, i / 2) == source[i] else OperatorAt(source, i / 2) == source[i];
      }
    }
  }

  /** The program: its operators, and one expression evaluated with them. It is refused exactly when it is not
      numbers with operators of the program between them, and of two operators the right one is applied first
      exactly when it is in a tighter class. */
  method Evaluate(arith: (char, int, int) -> int, cells: int -> int, source: seq<Token>) returns (ok: bool, answer: int)
    ensures ok <==> Expressible(source)
    ensures ok ==> answer == Looked(cells, Meaning(ProgramTable(arith), cells, source, 0, |source| / 2, Nothing).0)
    ensures ok && |source| == 1 ==> answer == source[0].n
    ensures ok && |source| == 5 ==>
              var a, b, c := Value(source[0].n, true), Value(source[2].n, true), Value(source[4].n, true);
              var first, second := source[1].op, source[3].op;
              answer == Looked(cells,
                if ClassOf(second) > ClassOf(first) then
                  Applied(arith, cells, first, a, Applied(arith, cells, second, b, c))
                else Applied(arith, cells, second, Applied(arith, cells, first, a, b), c))
  {
    var evaluator := new Evaluator(ProgramTable(arith), cells, source);
    ok, answer := evaluator.EvaluateCode();
    ExpressibleExactly(arith, source);
    if ok && |source| == 5 {
      ThreeNumbers(ProgramTable(arith), cells, source, Nothing, Value(source[0].n, true), Value(source[2].n, true),
                   Value(source[4].n, true));
      ClassesAreLevels(arith, source[1].op);
      ClassesAreLevels(arith, source[3].op);
    }
  }
}
