/** Two columns of location ids: sort each column and add up the distances
    between the paired entries. */
module Day01a {
  import opened Common
  import opened Text
  import opened Sorting

  /** A trimmed line against `^(\d+)\s+(\d+)$`: the two digit strings. */
  function MatchPair(t: string): (r: Option<(string, string)>)
    ensures r.Some? ==>
      var (a, b) := r.value;
      a != [] && b != [] && AllDigits(a) && AllDigits(b) && |a| + |b| < |t| &&
      t[..|a|] == a && t[|t| - |b|..] == b &&
      forall i :: |a| <= i < |t| - |b| ==> IsSpace(t[i])
  {
    var n := DigitRun(t);
    var rest := t[n..];
    var sp := SpaceRun(rest);
    var tail := rest[sp..];
    if n == 0 || sp == 0 || tail == [] || !AllDigits(tail) then None
    else Some((t[..n], tail))
  }

  /** Every line of that shape is matched, with its two digit strings. */
  lemma MatchPairComplete(a: string, sp: string, b: string)
    requires a != [] && b != [] && sp != [] && AllDigits(a) && AllDigits(b)
    requires forall i :: 0 <= i < |sp| ==> IsSpace(sp[i])
    ensures MatchPair(a + sp + b) == Some((a, b))
  {
    var t := a + sp + b;
    assert DigitRun(t) == |a| by {
      DigitRunOfDigits(a, sp + b);
      assert t == a + (sp + b);
    }
    assert SpaceRun(t[|a|..]) == |sp| by {
      assert t[|a|..] == sp + b;
      assert !IsSpace(b[0]);
      SpaceRunOfSpaces(sp, b);
    }
    assert t[|a|..][|sp|..] == b && t[..|a|] == a;
    MatchPairOn(t, |a|, |sp|);
  }

  /** The match, given the lengths of its digit and space runs. */
  lemma MatchPairOn(t: string, n: nat, sp: nat)
    requires 0 < n <= |t| && DigitRun(t) == n && 0 < sp <= |t| - n && SpaceRun(t[n..]) == sp
    requires t[n..][sp..] != [] && AllDigits(t[n..][sp..])
    ensures MatchPair(t) == Some((t[..n], t[n..][sp..]))
  {
  }

  /** The first pass over one input line: a blank line is skipped (None);
      any other line must match `^(\d+)\s+(\d+)$` once trimmed, and the
      error names the trimmed line. */
  function MatchLine(line: string): (r: Result<Option<(string, string)>>)
    ensures r == Ok(None) <==> IsBlank(line)
    ensures r.Err? ==> r.msg == "bad line: " + Trim(line)
    ensures r.Ok? && r.value.Some? ==>
      var (a, b) := r.value.value;
      a != [] && b != [] && AllDigits(a) && AllDigits(b)
  {
    var t := Trim(line);
    if t == [] then Ok(None)
    else match MatchPair(t)
      case None => Err("bad line: " + t)
      case Some(p) => Ok(Some(p))
  }

  /** Two digit strings with whitespace between them are matched as themselves. */
  lemma MatchLineRoundTrip(a: string, sp: string, b: string)
    requires a != [] && b != [] && AllDigits(a) && AllDigits(b)
    requires sp != [] && forall i :: 0 <= i < |sp| ==> IsSpace(sp[i])
    ensures MatchLine(a + sp + b) == Ok(Some((a, b)))
  {
    var t := a + sp + b;
    assert !IsSpace(t[0]) by { assert t[0] == a[0]; }
    assert TrimStart(t) == t;
    assert !IsSpace(t[|t| - 1]) by { assert t[|t| - 1] == b[|b| - 1]; }
    assert Trim(t) == t;
    MatchPairComplete(a, sp, b);
  }

  /** The first pass over all lines: the matched pairs with the blank lines
      dropped, or the error of the first line that does not match. */
  function MatchLines(lines: seq<string>): (r: Result<seq<(string, string)>>)
    ensures r.Ok? ==> |r.value| <= |lines|
  {
    var matched :- Collect(lines, MatchLine);
    Ok(Present(matched))
  }

  /** The first pass succeeds exactly when every line matches or is blank. */
  lemma MatchLinesOk(lines: seq<string>)
    ensures MatchLines(lines).Ok? <==> forall i :: 0 <= i < |lines| ==> MatchLine(lines[i]).Ok?
  {
    CollectEach(lines, MatchLine);
  }

  /** The left captures, in line order. */
  function Lefts(pairs: seq<(string, string)>): (r: seq<string>)
    ensures |r| == |pairs| && forall i :: 0 <= i < |pairs| ==> r[i] == pairs[i].0
  {
    seq(|pairs|, i requires 0 <= i < |pairs| => pairs[i].0)
  }

  /** The right captures, in line order. */
  function Rights(pairs: seq<(string, string)>): (r: seq<string>)
    ensures |r| == |pairs| && forall i :: 0 <= i < |pairs| ==> r[i] == pairs[i].1
  {
    seq(|pairs|, i requires 0 <= i < |pairs| => pairs[i].1)
  }

  /** All lines: every line is matched first, then the left column is parsed
      as u32 values, then the right column; the first failure is the answer. */
  function ParseColumns(lines: seq<string>): (r: Result<(seq<nat>, seq<nat>)>)
    ensures r.Ok? ==> |r.value.0| == |r.value.1| <= |lines|
    ensures r.Ok? ==> forall i :: 0 <= i < |r.value.0| ==> r.value.0[i] < U32_LIMIT && r.value.1[i] < U32_LIMIT
  {
    var pairs :- MatchLines(lines);
    var left :- ParseUnsignedAll(Lefts(pairs), U32_LIMIT);
    var right :- ParseUnsignedAll(Rights(pairs), U32_LIMIT);
    Ok((left, right))
  }

  /** Blank lines are skipped: an input of blank lines gives two empty columns. */
  lemma BlankInput(lines: seq<string>)
    requires forall i :: 0 <= i < |lines| ==> IsBlank(lines[i])
    ensures ParseColumns(lines) == Ok(([], []))
  {
    CollectEach(lines, MatchLine);
    var matched := Collect(lines, MatchLine).value;
    PresentAllNone(matched);
  }

  /** A line that does not match wins over every number that does not parse:
      the error is that of the first such line, whatever follows it. */
  lemma FirstBadLine(lines: seq<string>, i: nat)
    requires i < |lines| && MatchLine(lines[i]).Err?
    requires forall k :: 0 <= k < i ==> MatchLine(lines[k]).Ok?
    ensures ParseColumns(lines) == Err("bad line: " + Trim(lines[i]))
  {
    CollectEach(lines, MatchLine);
    var k :| 0 <= k < |lines| && MatchLine(lines[k]).Err? && Collect(lines, MatchLine).msg == MatchLine(lines[k]).msg &&
      forall j :: 0 <= j < k ==> MatchLine(lines[j]).Ok?;
    assert k == i;
  }

  /** Two columns of u32 values, rendered one pair per line with whitespace
      between them. */
  function Render(left: seq<nat>, right: seq<nat>, sp: string): (r: seq<string>)
    requires |left| == |right|
    ensures |r| == |left|
  {
    seq(|left|, i requires 0 <= i < |left| => Decimal(left[i]) + sp + Decimal(right[i]))
  }

  /** The rendered columns parse back to themselves. */
  lemma ParseColumnsRoundTrip(left: seq<nat>, right: seq<nat>, sp: string)
    requires |left| == |right|
    requires forall i :: 0 <= i < |left| ==> left[i] < U32_LIMIT && right[i] < U32_LIMIT
    requires sp != [] && forall i :: 0 <= i < |sp| ==> IsSpace(sp[i])
    ensures ParseColumns(Render(left, right, sp)) == Ok((left, right))
  {
    var pairs := seq(|left|, i requires 0 <= i < |left| => (Decimal(left[i]), Decimal(right[i])));
    RenderedLinesMatch(left, right, sp);
    assert MatchLines(Render(left, right, sp)) == Ok(pairs);
    ParsedColumn(left, Lefts(pairs));
    ParsedColumn(right, Rights(pairs));
  }

  lemma RenderedLinesMatch(left: seq<nat>, right: seq<nat>, sp: string)
    requires |left| == |right|
    requires sp != [] && forall i :: 0 <= i < |sp| ==> IsSpace(sp[i])
    ensures MatchLines(Render(left, right, sp)) ==
      Ok(seq(|left|, i requires 0 <= i < |left| => (Decimal(left[i]), Decimal(right[i]))))
  {
    var lines := Render(left, right, sp);
    var pairs := seq(|left|, i requires 0 <= i < |left| => (Decimal(left[i]), Decimal(right[i])));
    forall i | 0 <= i < |lines|
      ensures MatchLine(lines[i]) == Ok(Some(pairs[i]))
    {
      MatchLineRoundTrip(Decimal(left[i]), sp, Decimal(right[i]));
    }
    CollectEach(lines, MatchLine);
    var matched := Collect(lines, MatchLine).value;
    PresentAllSome(matched, pairs);
  }

  /** The decimal renderings of u32 values parse back to the values. */
  lemma ParsedColumn(values: seq<nat>, strings: seq<string>)
    requires |strings| == |values|
    requires forall i :: 0 <= i < |values| ==> values[i] < U32_LIMIT && strings[i] == Decimal(values[i])
    ensures ParseUnsignedAll(strings, U32_LIMIT) == Ok(values)
  {
    forall i | 0 <= i < |values|
      ensures ParseUnsigned(strings[i], U32_LIMIT) == Ok(values[i])
    {
      ParseDecimal(values[i], U32_LIMIT);
    }
    var r := ParseUnsignedAll(strings, U32_LIMIT);
    assert r.Ok?;
    assert forall i :: 0 <= i < |values| ==> r.value[i] == values[i];
    assert r.value == values;
  }

  /** Sum of |a[i] - b[i]| over the pairs of `zip(a, b)`. */
  function SumAbsDiff(a: seq<int>, b: seq<int>): int
  {
    if a == [] || b == [] then 0 else Abs(a[0] - b[0]) + SumAbsDiff(a[1..], b[1..])
  }

  /** The answer for two columns: sort both, then sum the paired distances. */
  function TotalDistance(left: seq<int>, right: seq<int>): (d: int)
    ensures d >= 0
  {
    SumAbsDiffNonNegative(Sort(left), Sort(right));
    SumAbsDiff(Sort(left), Sort(right))
  }

  lemma {:induction false} SumAbsDiffNonNegative(a: seq<int>, b: seq<int>)
    ensures SumAbsDiff(a, b) >= 0
  {
    if a != [] && b != [] {
      SumAbsDiffNonNegative(a[1..], b[1..]);
    }
  }

  /** The order in which the ids are listed does not matter. */
  lemma TotalDistanceIgnoresOrder(l1: seq<int>, r1: seq<int>, l2: seq<int>, r2: seq<int>)
    requires multiset(l1) == multiset(l2) && multiset(r1) == multiset(r2)
    ensures TotalDistance(l1, r1) == TotalDistance(l2, r2)
  {
    SortDependsOnlyOnElements(l1, l2);
    SortDependsOnlyOnElements(r1, r2);
  }

  /** Two columns holding the same ids are at distance zero. */
  lemma TotalDistanceSameIds(left: seq<int>, right: seq<int>)
    requires multiset(left) == multiset(right)
    ensures TotalDistance(left, right) == 0
  {
    SortDependsOnlyOnElements(left, right);
    SumAbsDiffSelf(Sort(left));
  }

  lemma {:induction false} SumAbsDiffSelf(a: seq<int>)
    ensures SumAbsDiff(a, a) == 0
  {
    if a != [] {
      SumAbsDiffSelf(a[1..]);
    }
  }

  /** The whole solver on the input lines. */
  function Solve(lines: seq<string>): (r: Result<int>)
    ensures r.Ok? ==> r.value >= 0
  {
    var (left, right) :- ParseColumns(lines);
    Ok(TotalDistance(left, right))
  }
}
