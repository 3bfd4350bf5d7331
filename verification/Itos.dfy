/** Integer to digit string by repeated subtraction (documents/itos.py). */
module Itos {

  const BUFFER_SIZE := 32

  function Pow(base: nat, e: nat): (r: nat)
    requires base >= 1
    ensures r >= 1
  {
    if e == 0 then 1 else base * Pow(base, e - 1)
  }

  /** The number a digit sequence stands for, most significant digit first. */
  function Eval(digits: seq<int>, base: nat): int {
    if digits == [] then 0
    else Eval(digits[..|digits| - 1], base) * base + digits[|digits| - 1]
  }

  /** How many subtractors 1, base, base^2, ... are below n. */
  ghost predicate HasDigits(n: nat, base: nat, k: nat)
    requires base >= 2
  {
    k >= 1 && Pow(base, k - 1) < n <= Pow(base, k)
  }

  lemma {:induction false} PowMonotone(base: nat, a: nat, b: nat)
    requires base >= 2 && a <= b
    ensures Pow(base, a) <= Pow(base, b)
    ensures a < b ==> Pow(base, a) < Pow(base, b)
    decreases b
  {
    if a < b {
      PowMonotone(base, a, b - 1);
      Scale(2, base, Pow(base, b - 1));
    }
  }

  lemma Scale(x: int, y: int, z: int)
    requires x <= y && z >= 0
    ensures x * z <= y * z
  {
  }

  /** The digit count of a number is unique. */
  lemma DigitsUnique(n: nat, base: nat, j: nat, k: nat)
    requires base >= 2 && HasDigits(n, base, j) && HasDigits(n, base, k)
    ensures j == k
  {
    if j < k {
      PowMonotone(base, j, k - 1);
    } else if k < j {
      PowMonotone(base, k, j - 1);
    }
  }

  /** More columns are needed than a given number exactly when n is above that power of the base. */
  lemma ManyColumns(n: nat, base: nat, k: nat, limit: nat)
    requires base >= 2 && HasDigits(n, base, k)
    ensures k > limit <==> n > Pow(base, limit)
  {
    if k > limit {
      PowMonotone(base, limit, k - 1);
    } else {
      PowMonotone(base, k, limit);
    }
  }

  /** Contents of the subtractor stack. */
  ghost predicate Powers(stack: seq<int>, base: nat)
    requires base >= 2
  {
    forall i :: 0 <= i < |stack| ==> stack[i] == Pow(base, i)
  }

  /** Peeling one digit off the front of what remains. */
  lemma EvalAppend(digits: seq<int>, d: int, base: nat)
    ensures Eval(digits + [d], base) == Eval(digits, base) * base + d
  {
    assert (digits + [d])[..|digits + [d]| - 1] == digits;
  }

  lemma Regroup(e: int, base: int, p: int, d: int)
    ensures (e * base + d) * p == e * (base * p) + d * p
  {
  }

  /** Where one column's digit lies, from what it was subtracted out of. */
  lemma DigitRange(n: int, subtractor: int, base: int, digit: int, rest: int)
    requires 0 <= rest < subtractor && n == digit * subtractor + rest
    ensures n >= subtractor ==> digit >= 1
    ensures n >= 0 ==> digit >= 0
    ensures n < base * subtractor ==> digit < base
    ensures n <= base * subtractor ==> digit <= base && (digit == base <==> n == base * subtractor)
  {
    if digit <= 0 { Scale(digit, 0, subtractor); }
    if digit <= -1 { Scale(digit, -1, subtractor); }
    if digit >= base { Scale(base, digit, subtractor); }
    if digit >= base + 1 { Scale(base + 1, digit, subtractor); }
    if digit <= base - 1 { Scale(digit, base - 1, subtractor); }
  }

  /** What a finished digit string must look like. The leading digit equals the base
      exactly for powers of the base, because subtractors stop strictly below n. */
  ghost predicate Represents(digits: seq<int>, n: nat, base: nat)
    requires base >= 2
  {
    && HasDigits(n, base, |digits|)
    && Eval(digits, base) == n
    && 0 < digits[0] <= base
    && (digits[0] == base <==> n == Pow(base, |digits|))
    && forall i :: 1 <= i < |digits| ==> 0 <= digits[i] < base
  }

  /** The columns done so far, with `rest` still to be spread over `left` more. */
  ghost predicate Partly(digits: seq<int>, rest: int, left: nat, n: nat, base: nat)
    requires base >= 2
  {
    && left >= 1 && HasDigits(n, base, |digits| + left)
    && 0 <= rest
    && Eval(digits, base) * Pow(base, left) + rest == n
    && (digits == [] ==> rest == n)
    && (digits != [] ==>
          && rest < Pow(base, left)
          && 0 < digits[0] <= base
          && (digits[0] == base <==> n == Pow(base, |digits| + left)))
    && forall i :: 1 <= i < |digits| ==> 0 <= digits[i] < base
  }

  lemma NextColumn(digits: seq<int>, rest: int, left: nat, n: nat, base: nat, digit: int, newRest: int)
    requires base >= 2 && Partly(digits, rest, left, n, base)
    requires 0 <= newRest < Pow(base, left - 1) && rest == digit * Pow(base, left - 1) + newRest
    ensures left > 1 ==> Partly(digits + [digit], newRest, left - 1, n, base)
    ensures left == 1 ==> newRest == 0 && Represents(digits + [digit], n, base)
  {
    hide Eval;
    var p := Pow(base, left - 1);
    DigitRange(rest, p, base, digit, newRest);
    EvalAppend(digits, digit, base);
    Regroup(Eval(digits, base), base, p, digit);
  }

  /** Python's assertion and index errors are the three failing outcomes. */
  datatype Outcome = Done | BadBase | StackUnderflow | BufferOverflow

  /** The loop that pushes every power of the base below n. */
  method BuildSubtractors(n: nat, base: nat) returns (stack: seq<int>)
    requires base >= 2
    ensures Powers(stack, base)
    ensures stack == [] <==> n < 2
    ensures stack != [] ==> HasDigits(n, base, |stack|)
  {
    var divisor := 1;
    stack := [];
    while divisor < n
      invariant Powers(stack, base) && divisor == Pow(base, |stack|)
      invariant |stack| > 0 ==> Pow(base, |stack| - 1) < n
      decreases n - divisor
    {
      stack := stack + [divisor];
      Scale(2, base, divisor);
      divisor := divisor * base;
    }
    if stack != [] {
      PowMonotone(base, 0, |stack| - 1);
    }
  }

  /** The inner loop: count how often the subtractor comes out of n. */
  method CountColumn(data: array<int>, bytePtr: nat, start: int, subtractor: int) returns (n: int)
    requires 0 < bytePtr < data.Length && start >= 0 && subtractor >= 1
    modifies data
    ensures 0 <= n < subtractor && start == data[bytePtr] * subtractor + n
    ensures data[0] == old(data[0]) + 1
    ensures forall i :: 0 < i < data.Length && i != bytePtr ==> data[i] == old(data[i])
  {
    n := start;
    data[bytePtr] := 0;
    data[0] := data[0] + 1;
    while n >= subtractor
      invariant 0 <= n && start == data[bytePtr] * subtractor + n
      invariant data[0] == old(data[0]) + 1
      invariant forall i :: 0 < i < data.Length && i != bytePtr ==> data[i] == old(data[i])
    {
      n := n - subtractor;
      data[bytePtr] := data[bytePtr] + 1;
    }
  }

  lemma LastSubtractor(base: nat, e: nat)
    requires base >= 2
    ensures Pow(base, e) == 1 <==> e == 0
  {
    PowMonotone(base, 0, e);
  }

  /** One turn of the outer loop, and the digit it found. */
  method SpreadColumn(data: array<int>, bytePtr: nat, whole: int, subtractor: int,
                      ghost digits: seq<int>, ghost left: nat, ghost start: nat, ghost base: nat)
      returns (n: int)
    requires 0 < bytePtr < data.Length && base >= 2 && left > 1 && subtractor == Pow(base, left - 1)
    requires Partly(digits, whole, left, start, base)
    modifies data
    ensures Partly(digits + [data[bytePtr]], n, left - 1, start, base)
    ensures data[0] == old(data[0]) + 1
    ensures forall i :: 0 < i < data.Length && i != bytePtr ==> data[i] == old(data[i])
  {
    n := CountColumn(data, bytePtr, whole, subtractor);
    NextColumn(digits, whole, left, start, base, data[bytePtr], n);
  }

  /** Every column but the last. */
  method SpreadColumns(data: array<int>, subtractors: seq<int>, start: nat, base: nat)
      returns (fits: bool, bytePtr: nat, n: int, ghost digits: seq<int>)
    requires data.Length == BUFFER_SIZE && data[0] == 1
    requires base >= 2 && HasDigits(start, base, |subtractors|) && Powers(subtractors, base)
    modifies data
    ensures !fits ==> |subtractors| > BUFFER_SIZE - 1
    ensures fits ==>
            bytePtr == |subtractors| == data[0] == |digits| + 1 <= BUFFER_SIZE && Partly(digits, n, 1, start, base)
    ensures fits ==> forall i :: 1 <= i < bytePtr ==> data[i] == digits[i - 1]
    ensures fits ==> forall i :: bytePtr <= i < BUFFER_SIZE ==> i > 0 ==> data[i] == old(data[i])
  {
    hide Pow;
    var stack := subtractors;
    bytePtr, n, digits := 1, start, [];
    var subtractor := stack[|stack| - 1];
    stack := stack[..|stack| - 1];
    while subtractor != 1
      invariant 1 <= bytePtr <= BUFFER_SIZE && data[0] == bytePtr
      invariant bytePtr == |digits| + 1 && bytePtr + |stack| == |subtractors|
      invariant forall i :: 1 <= i < bytePtr ==> data[i] == digits[i - 1]
      invariant Powers(stack, base) && subtractor == Pow(base, |stack|)
      invariant Partly(digits, n, |stack| + 1, start, base)
      invariant forall i :: bytePtr <= i < BUFFER_SIZE ==> data[i] == old(data[i])
      decreases |stack|
    {
      LastSubtractor(base, |stack|);
      if bytePtr >= BUFFER_SIZE {
        return false, bytePtr, n, digits;
      }
      n := SpreadColumn(data, bytePtr, n, subtractor, digits, |stack| + 1, start, base);
      digits := digits + [data[bytePtr]];
      subtractor := stack[|stack| - 1];
      stack := stack[..|stack| - 1];
      bytePtr := bytePtr + 1;
    }
    LastSubtractor(base, |stack|);
    fits := true;
  }

  /** The whole conversion: on success the digit count is in cell 0, the digits follow it
      and a zero ends them; the rest of the buffer is untouched. */
  method IntegerToString(data: array<int>, start: nat, base: nat) returns (outcome: Outcome)
    requires data.Length == BUFFER_SIZE
    modifies data
    ensures outcome == BadBase <==> !(2 <= base <= 16)
    ensures 2 <= base <= 16 ==> (outcome == StackUnderflow <==> start < 2)
    ensures 2 <= base <= 16 ==> (outcome == BufferOverflow <==> start > Pow(base, BUFFER_SIZE - 2))
    ensures outcome == Done ==>
              && 1 <= data[0] <= BUFFER_SIZE - 2
              && Represents(data[1..1 + data[0]], start, base)
              && data[1 + data[0]] == 0
              && forall i :: data[0] + 1 < i < BUFFER_SIZE ==> data[i] == old(data[i])
  {
    if !(2 <= base <= 16) {
      return BadBase;
    }
    var stack := BuildSubtractors(start, base);
    data[0] := 1;
    if stack == [] {
      PowMonotone(base, 0, BUFFER_SIZE - 2);
      return StackUnderflow;
    }
    ManyColumns(start, base, |stack|, BUFFER_SIZE - 2);
    var fits, bytePtr, n;
    ghost var digits;
    fits, bytePtr, n, digits := SpreadColumns(data, stack, start, base);
    if !fits || bytePtr >= BUFFER_SIZE {
      return BufferOverflow;
    }
    data[bytePtr] := n;
    if bytePtr + 1 >= BUFFER_SIZE {
      return BufferOverflow;
    }
    data[bytePtr + 1] := 0;
    NextColumn(digits, n, 1, start, base, n, 0);
    assert data[1..1 + data[0]] == digits + [n];
    return Done;
  }
}
