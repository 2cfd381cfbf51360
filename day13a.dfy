/** Claw contraptions: each machine has two buttons that move the claw by
    fixed amounts, and a prize position. For every count `a` of A presses
    from 0 to 100 the count of B presses is solved for; the cheapest accepted
    pair (3 tokens per A press, 1 per B press) is the machine's cost. */
module Day13a {
  import opened Common
  import opened Text

  /** One machine: button A's and button B's moves, and the prize. */
  datatype Machine = Machine(aDx: int, aDy: int, bDx: int, bDy: int, prizeX: int, prizeY: int)

  /** `n / d` when `d` divides `n`, otherwise `None`. Rust's truncating `%`
      and Dafny's Euclidean `%` agree on whether the remainder is zero, and
      the two `/` agree on exact quotients. */
  function Quotient(n: int, d: int): (r: Option<int>)
    requires d != 0
    ensures r.Some? ==> r.value * d == n
    ensures r.None? ==> forall q :: q * d != n
  {
    if n % d == 0 then
      Some(n / d)
    else
      assert forall q :: q * d != n by {
        forall q ensures q * d != n {
          if q * d == n {
            ModUnique(n, Abs(d), if d > 0 then q else -q, 0);
          }
        }
      }
      None
  }

  /** A pair of press counts the search accepts: A pressed 0..=100 times, B
      at most 100 times, both coordinates reached. As written the search puts
      no lower bound on B; `corrected` adds the bound `0 <= b` that the
      search's own design calls for. */
  predicate Accepts(m: Machine, a: int, b: int, corrected: bool)
  {
    0 <= a <= 100 && b <= 100 && (corrected ==> 0 <= b) &&
    a * m.aDx + b * m.bDx == m.prizeX && a * m.aDy + b * m.bDy == m.prizeY
  }

  /** The body of the search for one `a`: the B count both coordinates agree
      on, if it is at most 100 (and, corrected, not negative). */
  function PressesFor(m: Machine, a: int, corrected: bool): (r: Option<int>)
    requires m.bDx != 0 && m.bDy != 0
  {
    var bX := Quotient(m.prizeX - a * m.aDx, m.bDx);
    var bY := Quotient(m.prizeY - a * m.aDy, m.bDy);
    if bX.Some? && bY.Some? && bX.value == bY.value && bX.value <= 100 && (corrected ==> bX.value >= 0)
    then bX else None
  }

  /** For `a` in range, the search finds `b` exactly when the pair is accepted. */
  lemma PressesForAccepts(m: Machine, a: int, b: int, corrected: bool)
    requires m.bDx != 0 && m.bDy != 0 && 0 <= a <= 100
    ensures PressesFor(m, a, corrected) == Some(b) <==> Accepts(m, a, b, corrected)
  {
    if Accepts(m, a, b, corrected) {
      assert b * m.bDx == m.prizeX - a * m.aDx;
      assert b * m.bDy == m.prizeY - a * m.aDy;
      QuotientUnique(m.prizeX - a * m.aDx, m.bDx, b);
      QuotientUnique(m.prizeY - a * m.aDy, m.bDy, b);
    }
  }

  lemma QuotientUnique(n: int, d: int, q: int)
    requires d != 0 && q * d == n
    ensures Quotient(n, d) == Some(q)
  {
    var r := Quotient(n, d);
    assert r.Some?;
    assert (r.value - q) * d == 0;
  }

  /** The fewest tokens over the accepted pairs with `a < k`, if any. */
  function Fewest(m: Machine, k: nat, corrected: bool): Option<int>
    requires m.bDx != 0 && m.bDy != 0
  {
    if k == 0 then None
    else
      var before := Fewest(m, k - 1, corrected);
      match PressesFor(m, k - 1, corrected)
      case None => before
      case Some(b) =>
        var t := (k - 1) * 3 + b;
        Some(if before.Some? then Min(before.value, t) else t)
  }

  function Min(a: int, b: int): int { if a <= b then a else b }

  /** `Fewest` is the minimum cost over the accepted pairs with `a < k`, and
      is `None` exactly when there are none. */
  lemma {:induction false} FewestIsMinimum(m: Machine, k: nat, corrected: bool)
    requires m.bDx != 0 && m.bDy != 0 && k <= 101
    ensures Fewest(m, k, corrected).None? <==> forall a, b :: 0 <= a < k ==> !Accepts(m, a, b, corrected)
    ensures Fewest(m, k, corrected).Some? ==>
      (exists a, b :: 0 <= a < k && Accepts(m, a, b, corrected) && Fewest(m, k, corrected).value == 3 * a + b) &&
      forall a, b :: 0 <= a < k && Accepts(m, a, b, corrected) ==> Fewest(m, k, corrected).value <= 3 * a + b
  {
    if k > 0 {
      FewestIsMinimum(m, k - 1, corrected);
      var a := k - 1;
      match PressesFor(m, a, corrected)
      case None =>
        forall b ensures !Accepts(m, a, b, corrected) {
          PressesForAccepts(m, a, b, corrected);
        }
      case Some(b) =>
        PressesForAccepts(m, a, b, corrected);
        forall b' | Accepts(m, a, b', corrected) ensures b' == b {
          PressesForAccepts(m, a, b', corrected);
        }
    }
  }

  /** The search loop for one machine, keeping the cheapest accepted pair. */
  method MinTokens(m: Machine) returns (minTokens: Option<int>)
    requires m.bDx != 0 && m.bDy != 0
    ensures minTokens == Fewest(m, 101, false)
    ensures minTokens.None? <==> forall a, b :: !Accepts(m, a, b, false)
    ensures minTokens.Some? ==> forall a, b :: Accepts(m, a, b, false) ==> minTokens.value <= 3 * a + b
  {
    minTokens := None;
    for a := 0 to 101
      invariant minTokens == Fewest(m, a, false)
    {
      var bX: Option<int>;
      var numerator := m.prizeX - a * m.aDx;
      if numerator % m.bDx == 0 {
        bX := Some(numerator / m.bDx);
      } else {
        bX := None;
      }
      var bY: Option<int>;
      numerator := m.prizeY - a * m.aDy;
      if numerator % m.bDy == 0 {
        bY := Some(numerator / m.bDy);
      } else {
        bY := None;
      }
      if bX.Some? && bY.Some? && bX.value == bY.value && bX.value <= 100 {
        var t := a * 3 + bX.value;
        minTokens := Some(if minTokens.Some? then Min(minTokens.value, t) else t);
      }
    }
    FewestIsMinimum(m, 101, false);
  }

  /** A line against `^<prefix>([0-9]+)<middle>([0-9]+)$`: the two digit strings. */
  function TwoNumbers(line: string, prefix: string, middle: string): (r: Option<(string, string)>)
    ensures r.Some? ==> (r.value.0 != [] && r.value.1 != [] && AllDigits(r.value.0) && AllDigits(r.value.1) &&
      line == prefix + r.value.0 + middle + r.value.1)
  {
    if !StartsWith(line, prefix) then None
    else
      var rest := line[|prefix|..];
      var n := DigitRun(rest);
      var tail := rest[n..];
      if n == 0 || !StartsWith(tail, middle) then None
      else
        var last := tail[|middle|..];
        if last == [] || !AllDigits(last) then None
        else
          assert tail == middle + last;
          assert rest == rest[..n] + tail;
          assert line == prefix + rest;
          Some((rest[..n], last))
  }

  /** Every line of that shape is matched, with its own digit strings. */
  lemma TwoNumbersComplete(prefix: string, a: string, middle: string, b: string)
    requires a != [] && b != [] && AllDigits(a) && AllDigits(b) && middle != [] && !IsDigit(middle[0])
    ensures TwoNumbers(prefix + a + middle + b, prefix, middle) == Some((a, b))
  {
    var line := prefix + a + middle + b;
    assert line[..|prefix|] == prefix;
    var rest := line[|prefix|..];
    assert rest == a + (middle + b);
    DigitRunOfDigits(a, middle + b);
    assert rest[|a|..] == middle + b;
    assert (middle + b)[..|middle|] == middle;
    assert (middle + b)[|middle|..] == b;
  }

  /** A regex match, failing with a message that names the line. */
  function Capture(line: string, prefix: string, middle: string, what: string): (r: Result<(string, string)>)
    ensures r.Err? ==> r.msg == "expected " + what + " string: " + line
    ensures r.Ok? ==> TwoNumbers(line, prefix, middle) == Some(r.value)
  {
    match TwoNumbers(line, prefix, middle)
    case None => Err("expected " + what + " string: " + line)
    case Some(p) => Ok(p)
  }

  /** The two numbers of one line, matched and parsed as `i64`. */
  function ParsePair(line: string, prefix: string, middle: string, what: string): (r: Result<(int, int)>)
    ensures r.Ok? ==> exists x, y :: (TwoNumbers(line, prefix, middle) == Some((x, y)) &&
      ParseSigned(x, I64_LIMIT) == Ok(r.value.0) && ParseSigned(y, I64_LIMIT) == Ok(r.value.1))
  {
    var (x, y) :- Capture(line, prefix, middle, what);
    var x' :- ParseSigned(x, I64_LIMIT);
    var y' :- ParseSigned(y, I64_LIMIT);
    Ok((x', y'))
  }

  /** Three lines: button A, button B, prize. All three are matched before
      any of the six captures is parsed as `i64`. */
  function ParseMachine(a: string, b: string, prize: string): (r: Result<Machine>)
    ensures r.Ok? ==> (r.value.aDx >= 0 && r.value.aDy >= 0 && r.value.bDx >= 0 && r.value.bDy >= 0 &&
      r.value.prizeX >= 0 && r.value.prizeY >= 0)
    ensures (TwoNumbers(a, "Button A: X+", ", Y+").Some? && TwoNumbers(b, "Button B: X+", ", Y+").Some? &&
             TwoNumbers(prize, "Prize: X=", ", Y=").None?) ==> r == Err("expected prize string: " + prize)
  {
    var (aX, aY) :- Capture(a, "Button A: X+", ", Y+", "button A");
    var (bX, bY) :- Capture(b, "Button B: X+", ", Y+", "button B");
    var (pX, pY) :- Capture(prize, "Prize: X=", ", Y=", "prize");
    var aDx :- ParseSigned(aX, I64_LIMIT);
    var aDy :- ParseSigned(aY, I64_LIMIT);
    var bDx :- ParseSigned(bX, I64_LIMIT);
    var bDy :- ParseSigned(bY, I64_LIMIT);
    var prizeX :- ParseSigned(pX, I64_LIMIT);
    var prizeY :- ParseSigned(pY, I64_LIMIT);
    DigitsAreNonNegative(aX);
    DigitsAreNonNegative(aY);
    DigitsAreNonNegative(bX);
    DigitsAreNonNegative(bY);
    DigitsAreNonNegative(pX);
    DigitsAreNonNegative(pY);
    Ok(Machine(aDx, aDy, bDx, bDy, prizeX, prizeY))
  }

  /** A capture holds digits only, so it never parses to a negative number. */
  lemma DigitsAreNonNegative(digits: string)
    requires digits != [] && AllDigits(digits)
    ensures ParseSigned(digits, I64_LIMIT).Ok? ==> ParseSigned(digits, I64_LIMIT).value >= 0
  {
    assert digits[0] != '-';
  }

  /** The price of a machine: its fewest tokens, or 0 when no pair is
      accepted. */
  function Cost(m: Machine, corrected: bool): int
    requires m.bDx != 0 && m.bDy != 0
  {
    match Fewest(m, 101, corrected)
    case None => 0
    case Some(t) => t
  }

  /** The machines of the non-blank lines, three lines each, up to the first
      error: a group that is cut short (the source indexes past the end and
      panics), a line that does not match, or a button that does not move in
      x or y (the source divides by it and panics). */
  function Total(lines: seq<string>, corrected: bool): Result<int>
    decreases |lines|
  {
    if lines == [] then Ok(0)
    else if |lines| < 3 then Err("index out of bounds")
    else
      var m :- ParseMachine(lines[0], lines[1], lines[2]);
      if m.bDx == 0 || m.bDy == 0 then Err("attempt to calculate the remainder with a divisor of zero")
      else
        var rest :- Total(lines[3..], corrected);
        Ok(Cost(m, corrected) + rest)
  }

  /** Corrected, a machine costs between 0 and the 400 tokens of 100 presses
      of each button; as written the cost is still at most 400 but has no
      lower bound. */
  lemma CostBounds(m: Machine)
    requires m.bDx != 0 && m.bDy != 0
    ensures 0 <= Cost(m, true) <= 400
    ensures Cost(m, false) <= 400
  {
    FewestIsMinimum(m, 101, true);
    FewestIsMinimum(m, 101, false);
  }

  /** Where no accepted pair needs a negative B count, the search as written
      and the corrected one price a machine alike. */
  lemma {:induction false} AgreeWithoutNegative(m: Machine, k: nat)
    requires m.bDx != 0 && m.bDy != 0 && k <= 101
    requires forall a, b :: 0 <= a < k && Accepts(m, a, b, false) ==> b >= 0
    ensures Fewest(m, k, false) == Fewest(m, k, true)
  {
    if k > 0 {
      AgreeWithoutNegative(m, k - 1);
      var b := PressesFor(m, k - 1, false);
      if b.Some? {
        PressesForAccepts(m, k - 1, b.value, false);
      }
    }
  }

  /** A machine whose B button moves one tenth of A: as written the search
      accepts `a = 100, b = -995`, a price of -695 tokens; corrected, only
      `a = 0, b = 5` is left, 5 tokens. */
  lemma NegativeCost(m: Machine)
    requires m.aDx == m.aDy == 10 && m.bDx == m.bDy == 1 && m.prizeX == m.prizeY == 5
    ensures Cost(m, false) == -695
    ensures Cost(m, true) == 5
  {
    NegativeFewestAsWritten(m, 101);
    NegativeFewestCorrected(m, 101);
  }

  lemma NegativeFewestAsWritten(m: Machine, k: nat)
    requires m.aDx == m.aDy == 10 && m.bDx == m.bDy == 1 && m.prizeX == m.prizeY == 5 && k == 101
    ensures Fewest(m, k, false) == Some(-695)
  {
    FewestBelow(m, k, false, 100, -995);
    var a, b := FewestAttained(m, k, false);
    assert b == 5 - 10 * a;
  }

  lemma NegativeFewestCorrected(m: Machine, k: nat)
    requires m.aDx == m.aDy == 10 && m.bDx == m.bDy == 1 && m.prizeX == m.prizeY == 5 && k == 101
    ensures Fewest(m, k, true) == Some(5)
  {
    FewestBelow(m, k, true, 0, 5);
    var a, b := FewestAttained(m, k, true);
    assert b == 5 - 10 * a;
  }

  /** An accepted pair bounds the fewest tokens from above. */
  lemma FewestBelow(m: Machine, k: nat, corrected: bool, a: int, b: int)
    requires m.bDx != 0 && m.bDy != 0 && k <= 101
    requires 0 <= a < k && Accepts(m, a, b, corrected)
    ensures Fewest(m, k, corrected).Some? && Fewest(m, k, corrected).value <= 3 * a + b
  {
    FewestIsMinimum(m, k, corrected);
  }

  /** The fewest tokens are those of some accepted pair. */
  lemma FewestAttained(m: Machine, k: nat, corrected: bool) returns (a: int, b: int)
    requires m.bDx != 0 && m.bDy != 0 && k <= 101 && Fewest(m, k, corrected).Some?
    ensures 0 <= a < k && Accepts(m, a, b, corrected) && Fewest(m, k, corrected).value == 3 * a + b
  {
    FewestIsMinimum(m, k, corrected);
    a, b :| 0 <= a < k && Accepts(m, a, b, corrected) && Fewest(m, k, corrected).value == 3 * a + b;
  }

  /** The three lines of that machine. */
  const NegativeSample: seq<string> :=
    ["Button A: X+" + "10" + ", Y+" + "10", "Button B: X+" + "1" + ", Y+" + "1", "Prize: X=" + "5" + ", Y=" + "5"]

  /** On an input whose non-blank lines are that sample, the whole puzzle
      answer (the result of `Solve`) is -695 as written and 5 corrected. */
  lemma NegativeTotal(lines: seq<string>)
    requires NonBlankLines(lines) == NegativeSample
    ensures Total(NonBlankLines(lines), false) == Ok(-695)
    ensures Total(NonBlankLines(lines), true) == Ok(5)
  {
    var kept := NonBlankLines(lines);
    NegativeButtonA(kept[0]);
    NegativeButtonB(kept[1]);
    NegativePrize(kept[2]);
    var m := Machine(10, 10, 1, 1, 5, 5);
    MachineOf(kept[0], kept[1], kept[2], m);
    NegativeCost(m);
    TotalOfOne(kept, m, false);
    TotalOfOne(kept, m, true);
  }

  /** The sample is already trimmed and has no blank line, so it is an input
      of its own for `NegativeTotal`. */
  lemma NegativeSampleKept(lines: seq<string>)
    requires lines == NegativeSample
    ensures NonBlankLines(lines) == NegativeSample
  {
    forall i | 0 <= i < |lines| ensures lines[i] != [] && Trim(lines[i]) == lines[i] {
      var s := lines[i];
      assert s[0] in "BP" && s[|s| - 1] in "015";
      TrimUnchanged(s);
    }
    NonBlankLinesKept(lines);
  }

  /** Three lines that make one machine are priced as that machine. */
  lemma TotalOfOne(lines: seq<string>, m: Machine, corrected: bool)
    requires |lines| == 3 && ParseMachine(lines[0], lines[1], lines[2]) == Ok(m) && m.bDx != 0 && m.bDy != 0
    ensures Total(lines, corrected) == Ok(Cost(m, corrected))
  {
    assert lines[3..] == [];
  }

  lemma NegativeButtonA(line: string)
    requires line == NegativeSample[0]
    ensures ParsePair(line, "Button A: X+", ", Y+", "button A") == Ok((10, 10))
  {
    assert DigitsValue("10") == 10 by {
      assert "10"[..1] == "1";
    }
    PairOf(line, "Button A: X+", "10", ", Y+", "10", "button A", 10, 10);
  }

  lemma NegativeButtonB(line: string)
    requires line == NegativeSample[1]
    ensures ParsePair(line, "Button B: X+", ", Y+", "button B") == Ok((1, 1))
  {
    PairOf(line, "Button B: X+", "1", ", Y+", "1", "button B", 1, 1);
  }

  lemma NegativePrize(line: string)
    requires line == NegativeSample[2]
    ensures ParsePair(line, "Prize: X=", ", Y=", "prize") == Ok((5, 5))
  {
    PairOf(line, "Prize: X=", "5", ", Y=", "5", "prize", 5, 5);
  }

  /** Three lines whose pairs parse make the machine of those pairs. */
  lemma MachineOf(a: string, b: string, prize: string, m: Machine)
    requires ParsePair(a, "Button A: X+", ", Y+", "button A") == Ok((m.aDx, m.aDy))
    requires ParsePair(b, "Button B: X+", ", Y+", "button B") == Ok((m.bDx, m.bDy))
    requires ParsePair(prize, "Prize: X=", ", Y=", "prize") == Ok((m.prizeX, m.prizeY))
    ensures ParseMachine(a, b, prize) == Ok(m)
  {
  }

  /** A line of the expected shape parses to its two numbers. */
  lemma PairOf(line: string, prefix: string, x: string, middle: string, y: string, what: string, xv: int, yv: int)
    requires line == prefix + x + middle + y
    requires x != [] && y != [] && AllDigits(x) && AllDigits(y) && middle != [] && !IsDigit(middle[0])
    requires ParseSigned(x, I64_LIMIT) == Ok(xv) && ParseSigned(y, I64_LIMIT) == Ok(yv)
    ensures ParsePair(line, prefix, middle, what) == Ok((xv, yv))
  {
    TwoNumbersComplete(prefix, x, middle, y);
  }

  /** `do_it`: trim and drop blank lines, then add up the cost of every
      machine, three lines at a time. */
  method Solve(lines: seq<string>) returns (r: Result<int>)
    ensures r == Total(NonBlankLines(lines), false)
  {
    var contents := NonBlankLines(lines);
    var result := 0;
    var i := 0;
    while i < |contents|
      invariant i <= |contents| && i % 3 == 0
      invariant Total(contents, false).Ok? ==> Total(contents[i..], false).Ok? && Total(contents, false).value == result + Total(contents[i..], false).value
      invariant Total(contents, false).Err? ==> Total(contents[i..], false) == Total(contents, false)
      decreases |contents| - i
    {
      if i + 2 >= |contents| {
        return Err("index out of bounds");
      }
      var machine := ParseMachine(contents[i], contents[i + 1], contents[i + 2]);
      if machine.Err? {
        return Err(machine.msg);
      }
      var m := machine.value;
      if m.bDx == 0 || m.bDy == 0 {
        return Err("attempt to calculate the remainder with a divisor of zero");
      }
      var minTokens := MinTokens(m);
      assert contents[i..][3..] == contents[i + 3..];
      if minTokens.Some? {
        result := result + minTokens.value;
      }
      i := i + 3;
    }
    assert contents[i..] == [];
    return Ok(result);
  }
}
