/** Reactor reports: a report is safe when its levels never both rise and
    fall and every step changes the level by 1 to 3. */
module Day02a {
  import opened Common
  import opened Text

  /** One line: blank lines are skipped, otherwise the whitespace-separated
      pieces must all parse as `i32`. */
  function ParseReport(line: string): (r: Result<Option<seq<int>>>)
    ensures r == Ok(None) <==> IsBlank(line)
    ensures r.Ok? && r.value.Some? ==> |r.value.value| >= 1
  {
    var t := Trim(line);
    if t == [] then Ok(None)
    else
      var levels :- ParseAll(SplitSpaces(t));
      Ok(Some(levels))
  }

  function ParseAll(words: seq<string>): (r: Result<seq<int>>)
    ensures r.Ok? ==> |r.value| == |words|
    ensures r.Ok? ==> forall i :: 0 <= i < |words| ==> ParseSigned(words[i], I32_LIMIT) == Ok(r.value[i])
  {
    if words == [] then Ok([])
    else
      var first :- ParseSigned(words[0], I32_LIMIT);
      var rest :- ParseAll(words[1..]);
      Ok([first] + rest)
  }

  /** The line loop: `collect` stops at the first line that does not parse,
      then `flatten` drops the blank lines. The reports are the parses of the
      non-blank lines, in order, and none is empty. */
  function ParseReports(lines: seq<string>): (r: Result<seq<seq<int>>>)
    ensures r.Ok? ==> |r.value| <= |lines| && forall i :: 0 <= i < |r.value| ==> |r.value[i]| >= 1
    ensures r.Ok? ==> |r.value| == |NonBlankLines(lines)|
    ensures r.Ok? ==> forall k :: 0 <= k < |r.value| ==> ParseAll(SplitSpaces(NonBlankLines(lines)[k])) == Ok(r.value[k])
  {
    var parsed :- Collect(lines, ParseReport);
    ParsedLines(lines, parsed);
    PresentNonBlank(lines, parsed, (line, report) => ParseAll(SplitSpaces(line)) == Ok(report));
    Ok(Present(parsed))
  }

  /** Reading the reports succeeds exactly when every line parses, and
      otherwise fails with the error of the first line that does not. */
  lemma ParseReportsOk(lines: seq<string>)
    ensures ParseReports(lines).Ok? <==> forall i :: 0 <= i < |lines| ==> ParseReport(lines[i]).Ok?
    ensures ParseReports(lines).Err? ==>
      exists i :: (0 <= i < |lines| && ParseReport(lines[i]) == Err(ParseReports(lines).msg) &&
                   forall j :: 0 <= j < i ==> ParseReport(lines[j]).Ok?)
  {
    CollectEach(lines, ParseReport);
  }

  /** What each parsed line holds. */
  lemma ParsedLines(lines: seq<string>, parsed: seq<Option<seq<int>>>)
    requires Collect(lines, ParseReport) == Ok(parsed)
    ensures |parsed| == |lines|
    ensures forall i :: 0 <= i < |lines| ==>
      (parsed[i].None? <==> Trim(lines[i]) == []) &&
      (parsed[i].Some? ==> ParseAll(SplitSpaces(Trim(lines[i]))) == Ok(parsed[i].value))
  {
    CollectEach(lines, ParseReport);
    forall i | 0 <= i < |lines|
      ensures (parsed[i].None? <==> Trim(lines[i]) == []) &&
              (parsed[i].Some? ==> ParseAll(SplitSpaces(Trim(lines[i]))) == Ok(parsed[i].value))
    {
      ReportOf(lines[i], parsed[i]);
    }
  }

  /** What one parsed line holds. */
  lemma ReportOf(line: string, o: Option<seq<int>>)
    requires ParseReport(line) == Ok(o)
    ensures o.None? <==> Trim(line) == []
    ensures o.Some? ==> ParseAll(SplitSpaces(Trim(line))) == Ok(o.value)
  {
  }

  /** Some step goes up, some step goes down. */
  predicate HasIncrease(r: seq<int>) { exists i :: 0 <= i < |r| - 1 && r[i] < r[i + 1] }
  predicate HasDecrease(r: seq<int>) { exists i :: 0 <= i < |r| - 1 && r[i + 1] < r[i] }

  predicate StepInRange(r: seq<int>, i: int)
    requires 0 <= i < |r| - 1
  {
    1 <= Abs(r[i + 1] - r[i]) <= 3
  }

  /** The safety rule as the loop states it. */
  predicate Safe(r: seq<int>)
  {
    !(HasIncrease(r) && HasDecrease(r)) && forall i :: 0 <= i < |r| - 1 ==> StepInRange(r, i)
  }

  /** Every step rises by 1 to 3. */
  predicate Rising(r: seq<int>)
  {
    forall i :: 0 <= i < |r| - 1 ==> r[i] + 1 <= r[i + 1] <= r[i] + 3
  }

  /** Every step falls by 1 to 3. */
  predicate Falling(r: seq<int>)
  {
    forall i :: 0 <= i < |r| - 1 ==> r[i] - 3 <= r[i + 1] <= r[i] - 1
  }

  /** Safe means strictly rising or strictly falling by steps of 1 to 3. */
  lemma SafeIffMonotone(r: seq<int>)
    ensures Safe(r) <==> Rising(r) || Falling(r)
  {
    if Safe(r) && |r| >= 2 {
      if r[0] < r[1] {
        forall i | 0 <= i < |r| - 1 ensures r[i] + 1 <= r[i + 1] <= r[i] + 3 {
          assert StepInRange(r, i);
          assert !HasDecrease(r);
        }
      } else {
        assert StepInRange(r, 0);
        forall i | 0 <= i < |r| - 1 ensures r[i] - 3 <= r[i + 1] <= r[i] - 1 {
          assert StepInRange(r, i);
          assert !HasIncrease(r);
        }
      }
    }
    if Rising(r) {
      assert !HasDecrease(r);
    }
    if Falling(r) {
      assert !HasIncrease(r);
    }
  }

  /** The filter closure: count rising and falling steps and check every
      step's size in one pass. */
  method ReportIsSafe(r: seq<int>) returns (safe: bool)
    requires |r| >= 1
    ensures safe == Safe(r)
  {
    var increasing, decreasing := 0, 0;
    var allInRange := true;
    for i := 0 to |r| - 1
      invariant (increasing > 0) == (exists k :: 0 <= k < i && r[k] < r[k + 1])
      invariant (decreasing > 0) == (exists k :: 0 <= k < i && r[k + 1] < r[k])
      invariant allInRange == forall k :: 0 <= k < i ==> StepInRange(r, k)
    {
      var delta := r[i + 1] - r[i];
      if delta > 0 {
        increasing := increasing + 1;
      } else if delta < 0 {
        decreasing := decreasing + 1;
      }
      if !(1 <= Abs(delta) <= 3) {
        allInRange := false;
      }
      assert StepInRange(r, i) == (1 <= Abs(delta) <= 3);
    }
    safe := !(increasing > 0 && decreasing > 0) && allInRange;
  }

  /** Number of safe reports. */
  method CountSafe(reports: seq<seq<int>>) returns (count: nat)
    requires forall i :: 0 <= i < |reports| ==> |reports[i]| >= 1
    ensures count == CountWhere(reports, Safe)
  {
    count := 0;
    for n := 0 to |reports|
      invariant count == CountWhere(reports[..n], Safe)
    {
      var ok := ReportIsSafe(reports[n]);
      CountStep(reports, n, Safe);
      if ok {
        count := count + 1;
      }
    }
    assert reports[..|reports|] == reports;
  }

  /** `do_it`: read the reports, then count the safe ones. */
  method Solve(lines: seq<string>) returns (r: Result<nat>)
    ensures r.Ok? <==> ParseReports(lines).Ok?
    ensures r.Err? ==> ParseReports(lines) == Err(r.msg)
    ensures r.Ok? ==> var reports := ParseReports(lines).value;
      r.value == CountWhere(reports, Safe)
  {
    var reports := ParseReports(lines);
    if reports.Err? {
      return Err(reports.msg);
    }
    var count := CountSafe(reports.value);
    return Ok(count);
  }
}
