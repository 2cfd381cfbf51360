/** Bridge repair: an equation `answer: v0 v1 ... vn` is solvable when some
    choice of `+` and `*` between the values, evaluated strictly left to
    right, gives the answer. The operator choices are enumerated as the bits
    of a counter. */
module Day07a {
  import opened Common
  import opened Text

  datatype Line = Line(answer: nat, values: seq<nat>)

  /** The value list after the colon: split on single spaces, each piece
      trimmed, empty pieces dropped, the rest parsed as `u64`. */
  function ParseValues(pieces: seq<string>): (r: Result<seq<nat>>)
    ensures r.Ok? ==> |r.value| <= |pieces|
  {
    if pieces == [] then Ok([])
    else
      var t := Trim(pieces[0]);
      if t == [] then ParseValues(pieces[1..])
      else
        var v :- ParseUnsigned(t, U64_LIMIT);
        var rest :- ParseValues(pieces[1..]);
        Ok([v] + rest)
  }

  /** `Line::new`: exactly one ':' splitting the answer from the values. */
  function ParseLine(s: string): (r: Result<Line>)
    ensures |SplitOn(s, ':')| != 2 ==> r.Err?
    ensures r.Ok? ==> r.value.answer < U64_LIMIT
  {
    var parts := SplitOn(s, ':');
    if |parts| != 2 then Err("wrong number of splits on \":\"")
    else
      var answer :- ParseUnsigned(parts[0], U64_LIMIT);
      var values :- ParseValues(SplitOn(parts[1], ' '));
      Ok(Line(answer, values))
  }

  function Decimals(values: seq<nat>): (r: seq<string>)
    ensures |r| == |values| && forall i :: 0 <= i < |values| ==> r[i] == Decimal(values[i])
  {
    if values == [] then [] else [Decimal(values[0])] + Decimals(values[1..])
  }

  /** The puzzle's own notation: `answer: v0 v1 ...`. */
  function RenderLine(line: Line): string
  {
    Join([Decimal(line.answer), Join([""] + Decimals(line.values), ' ')], ':')
  }

  lemma {:induction false} ParseDecimals(values: seq<nat>)
    requires forall i :: 0 <= i < |values| ==> values[i] < U64_LIMIT
    ensures ParseValues(Decimals(values)) == Ok(values)
  {
    if values != [] {
      var d := Decimal(values[0]);
      DecimalTrimmed(values[0]);
      ParseDecimal(values[0], U64_LIMIT);
      ParseDecimals(values[1..]);
      ParseValuesCons(d, Decimals(values[1..]), values[0], values[1..]);
      assert Decimals(values) == [d] + Decimals(values[1..]);
      assert values == [values[0]] + values[1..];
    }
  }

  /** A non-blank trimmed number in front adds its value in front. */
  lemma ParseValuesCons(d: string, tail: seq<string>, v: nat, rest: seq<nat>)
    requires d != [] && Trim(d) == d
    requires ParseUnsigned(d, U64_LIMIT) == Ok(v) && ParseValues(tail) == Ok(rest)
    ensures ParseValues([d] + tail) == Ok([v] + rest)
  {
    assert ([d] + tail)[1..] == tail;
  }

  /** Parsing the rendering of a line whose numbers fit in `u64` gives the line back. */
  lemma ParseRenderLine(line: Line)
    requires line.answer < U64_LIMIT && forall i :: 0 <= i < |line.values| ==> line.values[i] < U64_LIMIT
    ensures ParseLine(RenderLine(line)) == Ok(line)
  {
    var pieces := [""] + Decimals(line.values);
    forall i | 0 <= i < |pieces| ensures ' ' !in pieces[i] && ':' !in pieces[i] {
      if i > 0 {
        assert pieces[i] == Decimal(line.values[i - 1]);
      }
    }
    var tail := Join(pieces, ' ');
    if ':' in tail {
      InJoin(pieces, ' ', ':');
    }
    var halves := [Decimal(line.answer), tail];
    SplitOnJoin(halves, ':');
    SplitOnJoin(pieces, ' ');
    ParseDecimal(line.answer, U64_LIMIT);
    ParseDecimals(line.values);
    assert pieces[1..] == Decimals(line.values);
  }

  datatype Operator = Add | Multiply

  function Apply(op: Operator, left: nat, right: nat): nat
  {
    match op
    case Add => left + right
    case Multiply => left * right
  }

  /** The value of the first `k + 1` values with the first `k` operators,
      strictly left to right. */
  function EvalPrefix(values: seq<nat>, ops: seq<Operator>, k: nat): nat
    requires k < |values| && k <= |ops|
  {
    if k == 0 then values[0] else Apply(ops[k - 1], EvalPrefix(values, ops, k - 1), values[k])
  }

  /** What `is_solution` accepts: no intermediate value exceeds the answer
      and the final value equals it. */
  predicate SolvedEarly(line: Line, ops: seq<Operator>)
    requires |line.values| >= 1 && |ops| == |line.values| - 1
  {
    (forall k :: 1 <= k < |line.values| ==> EvalPrefix(line.values, ops, k) <= line.answer) &&
    EvalPrefix(line.values, ops, |line.values| - 1) == line.answer
  }

  /** The equation holds under plain left-to-right evaluation. */
  predicate Evaluates(line: Line, ops: seq<Operator>)
    requires |line.values| >= 1 && |ops| == |line.values| - 1
  {
    EvalPrefix(line.values, ops, |line.values| - 1) == line.answer
  }

  /** With no value below 1 every intermediate value is at most the final
      one, so the early exit only rejects what plain evaluation rejects. */
  lemma EarlyExitExact(line: Line, ops: seq<Operator>)
    requires |line.values| >= 1 && |ops| == |line.values| - 1
    requires forall i :: 0 <= i < |line.values| ==> line.values[i] >= 1
    ensures SolvedEarly(line, ops) <==> Evaluates(line, ops)
  {
    var n := |line.values|;
    forall k | 1 <= k < n ensures EvalPrefix(line.values, ops, k) <= EvalPrefix(line.values, ops, n - 1) {
      PrefixMonotone(line.values, ops, k, n - 1);
    }
  }

  lemma {:induction false} PrefixMonotone(values: seq<nat>, ops: seq<Operator>, j: nat, k: nat)
    requires j <= k < |values| && k <= |ops|
    requires forall i :: 0 <= i < |values| ==> values[i] >= 1
    ensures EvalPrefix(values, ops, j) <= EvalPrefix(values, ops, k)
    decreases k
  {
    if j < k {
      PrefixMonotone(values, ops, j, k - 1);
      var prev := EvalPrefix(values, ops, k - 1);
      assert prev * values[k] >= prev * 1;
    }
  }

  /** A zero value breaks that: 0 = (5 + 1) * 0 holds, but the running value
      6 exceeds 0 first, so the early exit rejects it. */
  lemma ZeroDefeatsEarlyExit()
    ensures Evaluates(Line(0, [5, 1, 0]), [Add, Multiply])
    ensures !SolvedEarly(Line(0, [5, 1, 0]), [Add, Multiply])
  {
    assert EvalPrefix([5, 1, 0], [Add, Multiply], 1) == 6;
  }

  /** Bit `i` of the counter (`operators & (1 << i)`). */
  function Bit(c: nat, i: nat): (b: nat)
    ensures b < 2
  {
    if i == 0 then c % 2 else Bit(c / 2, i - 1)
  }

  /** The operators counter `c` stands for: Add where its bit is 0. */
  function Decode(c: nat, k: nat): (ops: seq<Operator>)
    ensures |ops| == k && forall i :: 0 <= i < k ==> ops[i] == (if Bit(c, i) == 0 then Add else Multiply)
  {
    seq(k, i requires 0 <= i < k => if Bit(c, i) == 0 then Add else Multiply)
  }

  /** The counter value that stands for `ops`. */
  function Encode(ops: seq<Operator>): nat
  {
    if ops == [] then 0 else (if ops[0] == Add then 0 else 1) + 2 * Encode(ops[1..])
  }

  /** Every operator choice is one counter value below `2^k`, so counting
      from 0 to `2^k - 1` tries them all. */
  lemma {:induction false} EncodeDecode(ops: seq<Operator>)
    ensures Encode(ops) < Pow(2, |ops|)
    ensures Decode(Encode(ops), |ops|) == ops
  {
    if ops != [] {
      var rest := ops[1..];
      EncodeDecode(rest);
      var c := Encode(ops);
      assert c / 2 == Encode(rest);
      forall i | 0 <= i < |ops| ensures Decode(c, |ops|)[i] == ops[i] {
        if i > 0 {
          assert Bit(c, i) == Bit(Encode(rest), i - 1);
        }
      }
    }
  }

  /** `Operators`: the counter whose bits choose the operators. */
  class Operators {
    var operators: nat

    constructor ()
      ensures operators == 0
    {
      operators := 0;
    }

    /** `Operators::next`. */
    method Next()
      modifies this
      ensures operators == old(operators) + 1
    {
      operators := operators + 1;
    }

    /** The `Index` implementation: operator `i` is Add when bit `i` is 0. */
    function Get(i: nat): (op: Operator)
      reads this
      ensures op == Decode(operators, i + 1)[i]
    {
      if Bit(operators, i) == 0 then Add else Multiply
    }
  }

  /** `is_solution`: fold the values left to right, giving up as soon as the
      running value exceeds the answer. */
  method IsSolution(line: Line, operators: Operators) returns (ok: bool)
    requires |line.values| >= 1
    ensures ok == SolvedEarly(line, Decode(operators.operators, |line.values| - 1))
  {
    ghost var ops := Decode(operators.operators, |line.values| - 1);
    var result := line.values[0];
    for i := 1 to |line.values|
      invariant result == EvalPrefix(line.values, ops, i - 1)
      invariant forall k :: 1 <= k < i ==> EvalPrefix(line.values, ops, k) <= line.answer
    {
      var left, right := result, line.values[i];
      result := match operators.Get(i - 1)
        case Add => left + right
        case Multiply => left * right;
      assert operators.Get(i - 1) == ops[i - 1];
      assert result == EvalPrefix(line.values, ops, i);
      if result > line.answer {
        return false;
      }
    }
    return result == line.answer;
  }

  /** Whether some operator choice satisfies `is_solution`. */
  ghost predicate Solvable(line: Line)
    requires |line.values| >= 1
  {
    exists ops :: |ops| == |line.values| - 1 && SolvedEarly(line, ops)
  }

  /** `is_solvable`: `Operators::new` fails on an empty value list and on more
      than 64 operators; the loop bound `2u32.pow(n - 1)` overflows (a panic)
      from 32 operators on, modelled as an error too. Otherwise every counter
      value below `2^(n-1)` is tried in order. */
  method IsSolvable(line: Line) returns (r: Result<bool>)
    ensures r.Ok? <==> 1 <= |line.values| <= 32
    ensures r.Ok? ==> (r.value <==> Solvable(line))
    ensures |line.values| == 0 ==> r == Err("line is empty, no values")
    ensures |line.values| > 65 ==> r == Err("too many values, line len = " + Decimal(|line.values|))
  {
    if |line.values| == 0 {
      return Err("line is empty, no values");
    }
    var k := |line.values| - 1;
    if k > 64 {
      return Err("too many values, line len = " + Decimal(|line.values|));
    }
    if k >= 32 {
      return Err("attempt to multiply with overflow");
    }
    var operators := new Operators();
    for c := 0 to Pow(2, k)
      invariant operators.operators == c
      invariant forall ops :: |ops| == k && Encode(ops) < c ==> !SolvedEarly(line, ops)
    {
      var ok := IsSolution(line, operators);
      if ok {
        return Ok(true);
      }
      forall ops | |ops| == k && Encode(ops) == c ensures !SolvedEarly(line, ops) {
        EncodeDecode(ops);
      }
      operators.Next();
    }
    forall ops | |ops| == k ensures !SolvedEarly(line, ops) {
      EncodeDecode(ops);
    }
    return Ok(false);
  }

  /** `Line::new` over every trimmed line, stopping at the first error. */
  function ParseLines(lines: seq<string>): (r: Result<seq<Line>>)
    ensures r.Ok? ==> |r.value| == |lines| && forall i :: 0 <= i < |lines| ==> ParseLine(Trim(lines[i])) == Ok(r.value[i])
  {
    if lines == [] then Ok([])
    else
      var first :- ParseLine(Trim(lines[0]));
      var rest :- ParseLines(lines[1..]);
      Ok([first] + rest)
  }

  /** The total calibration: the answers of the solvable lines, summed. */
  ghost function Calibration(lines: seq<Line>): nat
    requires forall i :: 0 <= i < |lines| ==> |lines[i].values| >= 1
  {
    if lines == [] then 0
    else
      var last := lines[|lines| - 1];
      Calibration(lines[..|lines| - 1]) + (if Solvable(last) then last.answer else 0)
  }

  /** Every line has between 1 and 32 values, so `is_solvable` succeeds on it. */
  predicate Checkable(lines: seq<Line>)
  {
    forall i :: 0 <= i < |lines| ==> 1 <= |lines[i].values| <= 32
  }

  /** One more checkable line adds its answer when it is solvable. */
  lemma CalibrationNext(lines: seq<Line>, i: nat)
    requires i < |lines| && Checkable(lines[..i]) && 1 <= |lines[i].values| <= 32
    ensures Checkable(lines[..i + 1])
    ensures Calibration(lines[..i + 1]) == Calibration(lines[..i]) + if Solvable(lines[i]) then lines[i].answer else 0
  {
    assert lines[..i + 1][..i] == lines[..i];
  }

  /** The summing loop over parsed lines; the first `is_solvable` error is the result. */
  method SumSolvable(lines: seq<Line>) returns (r: Result<nat>)
    ensures r.Ok? <==> Checkable(lines)
    ensures r.Ok? ==> r.value == Calibration(lines)
  {
    var sum := 0;
    for i := 0 to |lines|
      invariant Checkable(lines[..i])
      invariant sum == Calibration(lines[..i])
    {
      var solvable := IsSolvable(lines[i]);
      if solvable.Err? {
        assert !(1 <= |lines[i].values| <= 32);
        return Err(solvable.msg);
      }
      CalibrationNext(lines, i);
      if solvable.value {
        sum := sum + lines[i].answer;
      }
    }
    assert lines[..|lines|] == lines;
    return Ok(sum);
  }

  /** The answer: parse every line, then sum the answers of the solvable
      ones; any parse or `is_solvable` error is the result. */
  method Solve(text: seq<string>) returns (r: Result<nat>)
    ensures r.Ok? <==> ParseLines(text).Ok? && Checkable(ParseLines(text).value)
    ensures r.Ok? ==> r.value == Calibration(ParseLines(text).value)
  {
    var parsed := ParseLines(text);
    if parsed.Err? {
      return Err(parsed.msg);
    }
    r := SumSolvable(parsed.value);
  }
}
