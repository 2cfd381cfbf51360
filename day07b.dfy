/** Bridge repair with a third operator: `||` concatenates the decimal
    digits of its operands. The operator choices are enumerated as a base-3
    counter held digit by digit. `Line::new` is the same as in part one. */
module Day07b {
  import opened Common
  import opened Text
  import Day07a

  datatype Operator = Add | Multiply | Concat

  /** The digit each operator stands for in the counter. */
  function Digit(op: Operator): nat
  {
    match op
    case Add => 0
    case Multiply => 1
    case Concat => 2
  }

  /** The counter value of an operator vector, least significant first. */
  function Value(ops: seq<Operator>): nat
  {
    if ops == [] then 0 else Digit(ops[0]) + 3 * Value(ops[1..])
  }

  /** The number of distinct vectors of length `len`. */
  function Capacity(len: nat): (c: nat)
    ensures c > 0
  {
    PowPositive(3, len);
    Pow(3, len)
  }

  lemma {:induction false} ValueBound(ops: seq<Operator>)
    ensures Value(ops) < Capacity(|ops|)
  {
    if ops != [] {
      ValueBound(ops[1..]);
    }
  }

  /** Changing one digit changes the value by that digit's weight. */
  lemma {:induction false} ValueUpdate(ops: seq<Operator>, i: nat, op: Operator)
    requires i < |ops|
    ensures Value(ops[i := op]) as int == Value(ops) as int + Pow(3, i) * (Digit(op) as int - Digit(ops[i]) as int)
  {
    if i > 0 {
      ValueUpdate(ops[1..], i - 1, op);
      assert ops[i := op][1..] == ops[1..][i - 1 := op];
      var d := Digit(op) as int - Digit(ops[i]) as int;
      assert 3 * (Pow(3, i - 1) * d) == Pow(3, i) * d;
    }
  }

  /** Vectors of one length with the same value are equal: counting through
      values visits each vector once. */
  lemma {:induction false} ValueInjective(a: seq<Operator>, b: seq<Operator>)
    requires |a| == |b| && Value(a) == Value(b)
    ensures a == b
  {
    if a != [] {
      assert Digit(a[0]) == Value(a) % 3 == Digit(b[0]);
      ValueInjective(a[1..], b[1..]);
      assert a == [a[0]] + a[1..] && b == [b[0]] + b[1..];
    }
  }

  /** Value zero is the all-Add vector. */
  lemma {:induction false} ValueZero(ops: seq<Operator>)
    ensures Value(ops) == 0 <==> forall i :: 0 <= i < |ops| ==> ops[i] == Add
  {
    if ops != [] {
      ValueZero(ops[1..]);
      assert forall i :: 1 <= i < |ops| ==> ops[i] == ops[1..][i - 1];
    }
  }

  /** One step of the carry loop: advancing digit `i` either absorbs the
      carry or wraps to Add and passes it on. */
  lemma CarryStep(ops: seq<Operator>, i: nat, next: Operator)
    requires i < |ops|
    requires next == match ops[i] case Add => Multiply case Multiply => Concat case Concat => Add
    ensures next != Add ==> Value(ops[i := next]) == Value(ops) + Pow(3, i)
    ensures next == Add ==> Value(ops[i := next]) + Pow(3, i + 1) == Value(ops) + Pow(3, i)
  {
    ValueUpdate(ops, i, next);
    var w := Pow(3, i);
    assert Pow(3, i + 1) == 3 * w;
    if next == Add {
      assert Value(ops[i := next]) as int == Value(ops) as int - 2 * w;
    } else {
      assert Digit(next) as int - Digit(ops[i]) as int == 1;
    }
  }

  /** `Operators`: one operator per gap, as a base-3 counter. */
  class Operators {
    var operators: seq<Operator>

    /** `Operators::new` for a line with at least one value: all Add. */
    constructor (len: nat)
      ensures |operators| == len && Value(operators) == 0
    {
      operators := seq(len, _ => Add);
      new;
      ValueZero(operators);
    }

    /** `Operators::next`: a base-3 increment, Add -> Multiply -> Concat ->
        Add, carrying into the next position on the wrap to Add. */
    method Next()
      modifies this
      ensures |operators| == |old(operators)|
      ensures Value(operators) == (Value(old(operators)) + 1) % Capacity(|operators|)
    {
      ghost var before := operators;
      for i := 0 to |operators|
        invariant |operators| == |before|
        invariant Value(before) + 1 == Value(operators) + Pow(3, i)
        invariant forall k :: 0 <= k < i ==> operators[k] == Add
      {
        var next := match operators[i]
          case Add => Multiply
          case Multiply => Concat
          case Concat => Add;
        CarryStep(operators, i, next);
        operators := operators[i := next];
        if next != Add {
          ValueBound(operators);
          ModUnique(Value(before) + 1, Capacity(|before|), 0, Value(operators));
          return;
        }
      }
      ValueZero(operators);
      ModUnique(Value(before) + 1, Capacity(|before|), 1, 0);
    }

    /** The `Index` implementation. */
    function Get(i: nat): (op: Operator)
      reads this
      requires i < |operators|
      ensures op == operators[i]
    {
      operators[i]
    }
  }

  /** The counter value after `n` increments from all-Add. */
  function Iterate(n: nat, len: nat): nat
  {
    if n == 0 then 0 else (Iterate(n - 1, len) + 1) % Capacity(len)
  }

  lemma {:induction false} IterateIsMod(n: nat, len: nat)
    ensures Iterate(n, len) == n % Capacity(len)
  {
    if n > 0 {
      IterateIsMod(n - 1, len);
      ModSucc(n, Capacity(len));
    }
  }

  lemma ModSucc(n: nat, c: nat)
    requires n >= 1 && c > 0
    ensures ((n - 1) % c + 1) % c == n % c
  {
    var q, m := (n - 1) / c, (n - 1) % c;
    assert n == q * c + m + 1;
    if m + 1 == c {
      assert n == (q + 1) * c + 0;
      ModUnique(n, c, q + 1, 0);
      ModUnique(m + 1, c, 1, 0);
    } else {
      ModUnique(n, c, q, m + 1);
      ModUnique(m + 1, c, 0, m + 1);
    }
  }

  /** After `3^len` increments the counter is all-Add again. */
  lemma FullCycle(ops: seq<Operator>)
    requires Value(ops) == Iterate(Capacity(|ops|), |ops|)
    ensures forall i :: 0 <= i < |ops| ==> ops[i] == Add
  {
    IterateIsMod(Capacity(|ops|), |ops|);
    ValueZero(ops);
  }

  /** Concatenation's value: `l * 10^digits(r) + r`. */
  function CatValue(l: nat, r: nat): nat
  {
    l * Pow(10, NumDigits(r)) + r
  }

  /** The concatenation as the source computes it: both operands rendered,
      the strings joined, and the result parsed back as a `u64`. */
  function Cat(l: nat, r: nat): Result<nat>
  {
    ParseUnsigned(Decimal(l) + Decimal(r), U64_LIMIT)
  }

  /** The string round trip is decimal concatenation, failing exactly when
      the result does not fit in a `u64`. */
  lemma CatIsDecimalConcatenation(l: nat, r: nat)
    ensures CatValue(l, r) < U64_LIMIT ==> Cat(l, r) == Ok(CatValue(l, r))
    ensures CatValue(l, r) >= U64_LIMIT ==> Cat(l, r).Err?
  {
    var a, b := Decimal(l), Decimal(r);
    var s := a + b;
    assert s[..|a|] == a && s[|a|..] == b;
    DigitsValueSplit(s, |a|);
    DecimalValue(l);
    DecimalValue(r);
    assert DigitsValue(s) == CatValue(l, r);
    assert IsDigit(s[0]);
  }

  function Apply(op: Operator, left: nat, right: nat): Result<nat>
  {
    match op
    case Add => Ok(left + right)
    case Multiply => Ok(left * right)
    case Concat => Cat(left, right)
  }

  /** The evaluation loop from value `i` on, with running value `result`:
      a failed concatenation is an error, a running value above the answer
      rejects at once. */
  function RunFrom(line: Day07a.Line, ops: seq<Operator>, i: nat, result: nat): Result<bool>
    requires 1 <= i && |ops| == |line.values| - 1
    decreases |line.values| - i
  {
    if i >= |line.values| then Ok(result == line.answer)
    else
      var next :- Apply(ops[i - 1], result, line.values[i]);
      if next > line.answer then Ok(false) else RunFrom(line, ops, i + 1, next)
  }

  /** What `is_solution` returns. */
  function Check(line: Day07a.Line, ops: seq<Operator>): Result<bool>
    requires |line.values| >= 1 && |ops| == |line.values| - 1
  {
    RunFrom(line, ops, 1, line.values[0])
  }

  /** Plain left-to-right evaluation with mathematical concatenation. */
  function EvalPrefix(values: seq<nat>, ops: seq<Operator>, k: nat): nat
    requires k < |values| && k <= |ops|
  {
    if k == 0 then values[0]
    else
      var left := EvalPrefix(values, ops, k - 1);
      match ops[k - 1]
      case Add => left + values[k]
      case Multiply => left * values[k]
      case Concat => CatValue(left, values[k])
  }

  /** An accepted equation holds under plain evaluation. */
  lemma {:induction false} RunFromSound(line: Day07a.Line, ops: seq<Operator>, i: nat)
    requires 1 <= i <= |line.values| && |ops| == |line.values| - 1
    requires RunFrom(line, ops, i, EvalPrefix(line.values, ops, i - 1)) == Ok(true)
    ensures EvalPrefix(line.values, ops, |line.values| - 1) == line.answer
    decreases |line.values| - i
  {
    if i < |line.values| {
      var prev := EvalPrefix(line.values, ops, i - 1);
      if ops[i - 1] == Concat {
        CatIsDecimalConcatenation(prev, line.values[i]);
      }
      RunFromSound(line, ops, i + 1);
    }
  }

  /** With every value at least 1 and an answer that fits in a `u64`, every
      running value is at most the final one, so no concatenation can fail
      on the way to a true equation and the early exit rejects nothing that
      holds: `is_solution` accepts exactly the true equations. */
  lemma {:induction false} RunFromComplete(line: Day07a.Line, ops: seq<Operator>, i: nat)
    requires 1 <= i <= |line.values| && |ops| == |line.values| - 1
    requires forall k :: 0 <= k < |line.values| ==> line.values[k] >= 1
    requires line.answer < U64_LIMIT
    requires EvalPrefix(line.values, ops, |line.values| - 1) == line.answer
    ensures RunFrom(line, ops, i, EvalPrefix(line.values, ops, i - 1)) == Ok(true)
    decreases |line.values| - i
  {
    if i < |line.values| {
      PrefixMonotone(line.values, ops, i, |line.values| - 1);
      ApplyStep(line.values, ops, i);
      RunFromComplete(line, ops, i + 1);
    }
  }

  /** A running value that fits in a `u64` is what the operator yields. */
  lemma ApplyStep(values: seq<nat>, ops: seq<Operator>, i: nat)
    requires 1 <= i < |values| && i <= |ops|
    requires EvalPrefix(values, ops, i) < U64_LIMIT
    ensures Apply(ops[i - 1], EvalPrefix(values, ops, i - 1), values[i]) == Ok(EvalPrefix(values, ops, i))
  {
    if ops[i - 1] == Concat {
      CatIsDecimalConcatenation(EvalPrefix(values, ops, i - 1), values[i]);
    }
  }

  lemma {:induction false} PrefixMonotone(values: seq<nat>, ops: seq<Operator>, j: nat, k: nat)
    requires j <= k < |values| && k <= |ops|
    requires forall i :: 0 <= i < |values| ==> values[i] >= 1
    ensures EvalPrefix(values, ops, j) <= EvalPrefix(values, ops, k)
    decreases k
  {
    if j < k {
      PrefixMonotone(values, ops, j, k - 1);
      var prev := EvalPrefix(values, ops, k - 1);
      assert prev * values[k] >= prev * 1;
      CatAtLeast(prev, values[k]);
    }
  }

  lemma CatAtLeast(l: nat, r: nat)
    ensures CatValue(l, r) >= l
  {
    var p := Pow(10, NumDigits(r));
    PowPositive(10, NumDigits(r));
    assert l * p >= l * 1;
  }

  /** `is_solution`: the evaluation loop over the values. */
  method IsSolution(line: Day07a.Line, operators: Operators) returns (r: Result<bool>)
    requires |line.values| >= 1 && |operators.operators| == |line.values| - 1
    ensures r == Check(line, operators.operators)
  {
    ghost var ops := operators.operators;
    var result: nat := line.values[0];
    for i := 1 to |line.values|
      invariant Check(line, ops) == RunFrom(line, ops, i, result)
    {
      var left, right := result, line.values[i];
      var next: Result<nat> := match operators.Get(i - 1)
        case Add => Ok(left + right)
        case Multiply => Ok(left * right)
        case Concat => ParseUnsigned(Decimal(left) + Decimal(right), U64_LIMIT);
      if next.Err? {
        return Err(next.msg);
      }
      result := next.value;
      if result > line.answer {
        return Ok(false);
      }
    }
    return Ok(result == line.answer);
  }

  /** Some operator vector is accepted. */
  ghost predicate Solvable(line: Day07a.Line)
    requires |line.values| >= 1
  {
    exists ops :: |ops| == |line.values| - 1 && Check(line, ops) == Ok(true)
  }

  /** `is_solvable`: `Operators::new` fails on an empty value list; the loop
      bound `3u32.pow(n - 1)` overflows (a panic) from 21 operators on,
      modelled as an error. Otherwise the counter runs through all `3^(n-1)`
      vectors in order, and the first vector that is accepted or fails
      decides the result. */
  method IsSolvable(line: Day07a.Line) returns (r: Result<bool>)
    ensures r == Outcome(line)
    ensures r.Ok? ==> 1 <= |line.values| <= 21
    ensures r.Ok? ==> (r.value <==> Solvable(line))
    ensures r.Err? && 1 <= |line.values| <= 21 ==>
      exists ops :: |ops| == |line.values| - 1 && Check(line, ops).Err?
  {
    if |line.values| == 0 {
      return Err("line is empty, no values");
    }
    var k := |line.values| - 1;
    if k >= 21 {
      return Err("attempt to multiply with overflow");
    }
    r := CountThrough(line);
    SearchFromFirst(line, 0);
    if r.Ok? {
      OutcomeSolvable(line);
    }
  }

  /** The counter loop of `is_solvable`, for a line with 1 to 21 values. */
  method CountThrough(line: Day07a.Line) returns (r: Result<bool>)
    requires 1 <= |line.values| <= 21
    ensures r == SearchFrom(line, 0)
  {
    var k := |line.values| - 1;
    var operators := new Operators(k);
    for c := 0 to Pow(3, k)
      invariant |operators.operators| == k && (c < Pow(3, k) ==> Value(operators.operators) == c)
      invariant SearchFrom(line, c) == SearchFrom(line, 0)
    {
      VectorValue(c, k);
      ValueInjective(operators.operators, Vector(c, k));
      SearchFromStep(line, c);
      var ok := IsSolution(line, operators);
      if ok.Err? {
        return Err(ok.msg);
      }
      if ok.value {
        return Ok(true);
      }
      operators.Next();
      if c + 1 < Pow(3, k) {
        ModUnique(c + 1, Capacity(k), 0, c + 1);
      }
    }
    SearchFromStep(line, Pow(3, k));
    return Ok(false);
  }

  /** The loop's result from counter value `c` on, with every smaller vector
      rejected: `false` means every vector is rejected, and anything else is
      what the first vector not rejected gives. */
  lemma {:induction false} SearchFromFirst(line: Day07a.Line, c: nat)
    requires 1 <= |line.values| <= 21
    requires forall ops :: |ops| == |line.values| - 1 && Value(ops) < c ==> Check(line, ops) == Ok(false)
    ensures SearchFrom(line, c) == Ok(false) ==>
      forall ops :: |ops| == |line.values| - 1 ==> Check(line, ops) == Ok(false)
    ensures SearchFrom(line, c) != Ok(false) ==>
      exists ops :: (|ops| == |line.values| - 1 && Check(line, ops) == SearchFrom(line, c) &&
        forall other :: |other| == |ops| && Value(other) < Value(ops) ==> Check(line, other) == Ok(false))
    decreases Capacity(|line.values| - 1) - c
  {
    var k := |line.values| - 1;
    SearchFromStep(line, c);
    if c >= Capacity(k) {
      forall ops | |ops| == k ensures Check(line, ops) == Ok(false) {
        ValueBound(ops);
      }
    } else {
      var v := Vector(c, k);
      VectorValue(c, k);
      if Check(line, v) == Ok(false) {
        NoneBelowNext(line, c, v);
        SearchFromFirst(line, c + 1);
      }
    }
  }

  /** One step of the counter loop. */
  lemma SearchFromStep(line: Day07a.Line, c: nat)
    requires |line.values| >= 1
    ensures c >= Capacity(|line.values| - 1) ==> SearchFrom(line, c) == Ok(false)
    ensures c < Capacity(|line.values| - 1) ==>
      var result := Check(line, Vector(c, |line.values| - 1));
      SearchFrom(line, c) == if result == Ok(false) then SearchFrom(line, c + 1) else result
  {
  }

  /** A rejected vector with counter value `c` extends the rejected range. */
  lemma NoneBelowNext(line: Day07a.Line, c: nat, current: seq<Operator>)
    requires |current| == |line.values| - 1 && Value(current) == c && Check(line, current) == Ok(false)
    requires forall ops :: |ops| == |current| && Value(ops) < c ==> Check(line, ops) == Ok(false)
    ensures forall ops :: |ops| == |current| && Value(ops) < c + 1 ==> Check(line, ops) == Ok(false)
  {
    forall ops | |ops| == |current| && Value(ops) == c ensures Check(line, ops) == Ok(false) {
      ValueInjective(ops, current);
    }
  }

  /** The operator vector of length `len` whose counter value is `c`: the
      base-3 digits of `c`, least significant first. */
  function Vector(c: nat, len: nat): (ops: seq<Operator>)
    ensures |ops| == len
  {
    if len == 0 then []
    else [if c % 3 == 0 then Add else if c % 3 == 1 then Multiply else Concat] + Vector(c / 3, len - 1)
  }

  lemma {:induction false} VectorValue(c: nat, len: nat)
    requires c < Capacity(len)
    ensures Value(Vector(c, len)) == c
  {
    if len > 0 {
      assert Capacity(len) == 3 * Capacity(len - 1);
      VectorValue(c / 3, len - 1);
      assert Vector(c, len)[1..] == Vector(c / 3, len - 1);
    }
  }

  /** The counter loop from value `c` on: the first vector that is not
      rejected decides, an accepted one with `true` and a failed one with its
      error; when every vector is rejected the answer is `false`. */
  function SearchFrom(line: Day07a.Line, c: nat): Result<bool>
    requires |line.values| >= 1
    decreases Capacity(|line.values| - 1) - c
  {
    var k := |line.values| - 1;
    if c >= Capacity(k) then Ok(false)
    else
      match Check(line, Vector(c, k))
      case Ok(found) => if found then Ok(true) else SearchFrom(line, c + 1)
      case Err(msg) => Err(msg)
  }

  /** What `is_solvable` returns: the two errors before the loop, then the
      counter loop from all-Add. */
  function Outcome(line: Day07a.Line): Result<bool>
  {
    if |line.values| == 0 then Err("line is empty, no values")
    else if |line.values| - 1 >= 21 then Err("attempt to multiply with overflow")
    else SearchFrom(line, 0)
  }

  /** No operator vector makes the concatenation overflow. */
  ghost predicate NeverOverflows(line: Day07a.Line)
  {
    1 <= |line.values| <= 21 &&
    forall ops :: |ops| == |line.values| - 1 ==> Check(line, ops).Ok?
  }

  /** When no vector overflows, the loop runs to an answer. */
  lemma {:induction false} SearchFromOk(line: Day07a.Line, c: nat)
    requires NeverOverflows(line)
    ensures SearchFrom(line, c).Ok?
    decreases Capacity(|line.values| - 1) - c
  {
    var k := |line.values| - 1;
    if c < Capacity(k) {
      assert Check(line, Vector(c, k)).Ok?;
      SearchFromOk(line, c + 1);
    }
  }

  /** A line with 1 to 21 values and no overflowing vector is checked
      without error. */
  lemma OutcomeOk(line: Day07a.Line)
    ensures NeverOverflows(line) ==> Outcome(line).Ok?
  {
    if NeverOverflows(line) {
      SearchFromOk(line, 0);
    }
  }

  /** The answers of the solvable lines, summed. */
  ghost function Calibration(lines: seq<Day07a.Line>): nat
    requires forall i :: 0 <= i < |lines| ==> |lines[i].values| >= 1
  {
    if lines == [] then 0
    else
      var last := lines[|lines| - 1];
      Calibration(lines[..|lines| - 1]) + (if Solvable(last) then last.answer else 0)
  }

  /** Every line has between 1 and 21 values, so `is_solvable` can run on it. */
  predicate Checkable(lines: seq<Day07a.Line>)
  {
    forall i :: 0 <= i < |lines| ==> 1 <= |lines[i].values| <= 21
  }

  /** The search's result is fixed by the line: `false` exactly when every
      operator vector is rejected, and otherwise what the first vector in
      counter order that is not rejected gives, an error included. A line
      whose vectors never overflow gets an answer. */
  lemma OutcomeFirst(line: Day07a.Line)
    requires 1 <= |line.values| <= 21
    ensures Outcome(line) == Ok(false) <==>
      forall ops :: |ops| == |line.values| - 1 ==> Check(line, ops) == Ok(false)
    ensures Outcome(line) != Ok(false) ==>
      exists ops :: (|ops| == |line.values| - 1 && Check(line, ops) == Outcome(line) &&
        forall other :: |other| == |ops| && Value(other) < Value(ops) ==> Check(line, other) == Ok(false))
    ensures NeverOverflows(line) ==> Outcome(line).Ok?
  {
    SearchFromFirst(line, 0);
    OutcomeOk(line);
  }

  /** A finished search answers whether the line is solvable. */
  lemma OutcomeSolvable(line: Day07a.Line)
    requires Outcome(line).Ok?
    ensures 1 <= |line.values| <= 21
    ensures Outcome(line).value <==> Solvable(line)
  {
    SearchFromFirst(line, 0);
  }

  /** The answers collected line by line, as `collect` does: the first line
      whose search fails decides the error, and otherwise the answers of the
      lines found solvable are summed. */
  function Total(lines: seq<Day07a.Line>): Result<nat>
  {
    var found :- Collect(lines, Outcome);
    Ok(Answers(lines, found))
  }

  /** The answers of the lines whose flag is set. */
  function Answers(lines: seq<Day07a.Line>, found: seq<bool>): nat
    requires |found| == |lines|
  {
    if lines == [] then 0
    else
      var k := |lines| - 1;
      Answers(lines[..k], found[..k]) + (if found[k] then lines[k].answer else 0)
  }

  /** Flags that say which lines are solvable sum to the calibration. */
  lemma {:induction false} AnswersCalibration(lines: seq<Day07a.Line>, found: seq<bool>)
    requires |found| == |lines| && Checkable(lines)
    requires forall i :: 0 <= i < |lines| ==> (found[i] <==> Solvable(lines[i]))
    ensures Answers(lines, found) == Calibration(lines)
  {
    if lines != [] {
      var k := |lines| - 1;
      AnswersCalibration(lines[..k], found[..k]);
    }
  }

  /** The total exists exactly when every line's search finishes, and is
      then the calibration; otherwise it is the error of the first line whose
      search fails. */
  lemma TotalOk(lines: seq<Day07a.Line>)
    ensures Total(lines).Ok? <==> forall i :: 0 <= i < |lines| ==> Outcome(lines[i]).Ok?
    ensures Total(lines).Ok? ==> Checkable(lines) && Total(lines).value == Calibration(lines)
    ensures Total(lines).Err? ==>
      exists i :: (0 <= i < |lines| && Outcome(lines[i]) == Err(Total(lines).msg) &&
                   forall j :: 0 <= j < i ==> Outcome(lines[j]).Ok?)
  {
    CollectEach(lines, Outcome);
    if Total(lines).Ok? {
      var found := Collect(lines, Outcome).value;
      forall i | 0 <= i < |lines| ensures 1 <= |lines[i].values| <= 21 && (found[i] <==> Solvable(lines[i])) {
        OutcomeSolvable(lines[i]);
      }
      AnswersCalibration(lines, found);
    }
  }

  /** The summing loop; the first `is_solvable` error is the result. */
  method SumSolvable(lines: seq<Day07a.Line>) returns (r: Result<nat>)
    ensures r == Total(lines)
    ensures r.Ok? ==> Checkable(lines) && r.value == Calibration(lines)
    ensures !Checkable(lines) ==> r.Err?
    ensures r.Ok? <==> forall i :: 0 <= i < |lines| ==> Outcome(lines[i]).Ok?
    ensures (forall i :: 0 <= i < |lines| ==> NeverOverflows(lines[i])) ==> r.Ok?
  {
    var sum := 0;
    ghost var found: seq<bool> := [];
    for i := 0 to |lines|
      invariant |found| == i && sum == Answers(lines[..i], found)
      invariant forall j :: 0 <= j < i ==> Outcome(lines[j]) == Ok(found[j])
    {
      var solvable := IsSolvable(lines[i]);
      if solvable.Err? {
        FirstFailure(lines, i);
        r := Err(solvable.msg);
        SumFacts(lines, r);
        return;
      }
      AnswersNext(lines, i, found, solvable.value);
      FoundNext(lines, i, found, solvable.value);
      if solvable.value {
        sum := sum + lines[i].answer;
      }
      found := found + [solvable.value];
    }
    AllFound(lines, found);
    r := Ok(sum);
    SumFacts(lines, r);
  }

  /** One more flag adds that line's answer when it is set. */
  lemma AnswersNext(lines: seq<Day07a.Line>, i: nat, found: seq<bool>, b: bool)
    requires i < |lines| && |found| == i
    ensures Answers(lines[..i + 1], found + [b]) == Answers(lines[..i], found) + (if b then lines[i].answer else 0)
  {
    assert lines[..i + 1][..i] == lines[..i];
    assert (found + [b])[..i] == found;
  }

  /** One more finished search extends the recorded outcomes. */
  lemma FoundNext(lines: seq<Day07a.Line>, i: nat, found: seq<bool>, b: bool)
    requires i < |lines| && |found| == i && Outcome(lines[i]) == Ok(b)
    requires forall j :: 0 <= j < i ==> Outcome(lines[j]) == Ok(found[j])
    ensures forall j :: 0 <= j < i + 1 ==> Outcome(lines[j]) == Ok((found + [b])[j])
  {
  }

  /** The first line whose search fails decides the total's error. */
  lemma FirstFailure(lines: seq<Day07a.Line>, i: nat)
    requires i < |lines| && Outcome(lines[i]).Err?
    requires forall j :: 0 <= j < i ==> Outcome(lines[j]).Ok?
    ensures Total(lines) == Err(Outcome(lines[i]).msg)
  {
    CollectEach(lines, Outcome);
    var k :| 0 <= k < |lines| && Outcome(lines[k]).Err? && Collect(lines, Outcome).msg == Outcome(lines[k]).msg &&
      forall j :: 0 <= j < k ==> Outcome(lines[j]).Ok?;
    assert k == i;
  }

  /** When every search finishes, the total sums the answers they found. */
  lemma AllFound(lines: seq<Day07a.Line>, found: seq<bool>)
    requires |found| == |lines| && forall j :: 0 <= j < |lines| ==> Outcome(lines[j]) == Ok(found[j])
    ensures Total(lines) == Ok(Answers(lines[..|lines|], found))
  {
    CollectEach(lines, Outcome);
    assert Collect(lines, Outcome).value == found;
    assert lines[..|lines|] == lines;
  }

  /** What the total promises, gathered for the summing loop. */
  lemma SumFacts(lines: seq<Day07a.Line>, r: Result<nat>)
    requires r == Total(lines)
    ensures r.Ok? ==> Checkable(lines) && r.value == Calibration(lines)
    ensures !Checkable(lines) ==> r.Err?
    ensures r.Ok? <==> forall i :: 0 <= i < |lines| ==> Outcome(lines[i]).Ok?
    ensures (forall i :: 0 <= i < |lines| ==> NeverOverflows(lines[i])) ==> r.Ok?
  {
    TotalOk(lines);
    forall i | 0 <= i < |lines| && NeverOverflows(lines[i]) ensures Outcome(lines[i]).Ok? {
      OutcomeOk(lines[i]);
    }
  }

  lemma CheckableExtend(lines: seq<Day07a.Line>, i: nat)
    requires i < |lines| && Checkable(lines[..i]) && 1 <= |lines[i].values| <= 21
    ensures Checkable(lines[..i + 1])
  {
    assert forall j :: 0 <= j < i ==> lines[..i + 1][j] == lines[..i][j];
  }

  /** The answer: parse every trimmed line, then sum the answers of the
      solvable ones. */
  method Solve(text: seq<string>) returns (r: Result<nat>)
    ensures r.Ok? ==> Day07a.ParseLines(text).Ok? && Checkable(Day07a.ParseLines(text).value)
    ensures r.Ok? ==> r.value == Calibration(Day07a.ParseLines(text).value)
    ensures r.Ok? <==> (Day07a.ParseLines(text).Ok? &&
      forall i :: 0 <= i < |Day07a.ParseLines(text).value| ==> Outcome(Day07a.ParseLines(text).value[i]).Ok?)
    ensures Day07a.ParseLines(text).Ok? ==> r == Total(Day07a.ParseLines(text).value)
    ensures Day07a.ParseLines(text).Err? ==> r == Err(Day07a.ParseLines(text).msg)
    ensures Day07a.ParseLines(text).Ok? &&
      (forall i :: 0 <= i < |Day07a.ParseLines(text).value| ==> NeverOverflows(Day07a.ParseLines(text).value[i]))
      ==> r.Ok?
  {
    var parsed := Day07a.ParseLines(text);
    if parsed.Err? {
      return Err(parsed.msg);
    }
    r := SumSolvable(parsed.value);
  }
}
