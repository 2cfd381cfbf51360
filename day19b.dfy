/** Linen layout, part two: the number of different ways each pattern can
    be laid out from the towels, summed over the patterns. The solver sums
    over the towels filed under the pattern's first letter and remembers
    every answer it computes. */
module Day19b {
  import opened Common
  import opened Text
  import Day19a

  /** The number of ways to lay out `pattern`: one for the empty pattern,
      otherwise what each towel contributes. */
  ghost function Ways(pattern: string, towels: set<string>): nat
    decreases |pattern|, |towels| + 1
  {
    if pattern == [] then 1 else WaysOver(pattern, towels, towels)
  }

  /** What the towels of `s` contribute, each as `Term`. */
  ghost function WaysOver(pattern: string, s: set<string>, towels: set<string>): nat
    decreases |pattern|, |s|
  {
    if s == {} then 0
    else
      var t :| t in s;
      Term(pattern, t, towels) + WaysOver(pattern, s - {t}, towels)
  }

  /** A non-empty towel that starts the pattern contributes the ways of
      laying out the rest; any other towel contributes nothing. */
  ghost function Term(pattern: string, t: string, towels: set<string>): nat
    decreases |pattern|, 0
  {
    if t != [] && StartsWith(pattern, t) then Ways(pattern[|t|..], towels) else 0
  }

  /** The contribution does not depend on the order the towels are taken
      in: any one of them can be taken first. */
  lemma {:induction false} WaysOverRemove(pattern: string, s: set<string>, x: string, towels: set<string>)
    requires x in s
    ensures WaysOver(pattern, s, towels) == Term(pattern, x, towels) + WaysOver(pattern, s - {x}, towels)
    decreases |s|
  {
    var t :| t in s && WaysOver(pattern, s, towels) == Term(pattern, t, towels) + WaysOver(pattern, s - {t}, towels);
    if t != x {
      WaysOverRemove(pattern, s - {t}, x, towels);
      WaysOverRemove(pattern, s - {x}, t, towels);
      assert s - {t} - {x} == s - {x} - {t};
    }
  }

  /** Towels that all contribute nothing add up to nothing. */
  lemma {:induction false} WaysOverZero(pattern: string, s: set<string>, towels: set<string>)
    requires forall t :: t in s ==> Term(pattern, t, towels) == 0
    ensures WaysOver(pattern, s, towels) == 0
    decreases |s|
  {
    if s != {} {
      var t :| t in s && WaysOver(pattern, s, towels) == Term(pattern, t, towels) + WaysOver(pattern, s - {t}, towels);
      WaysOverZero(pattern, s - {t}, towels);
    }
  }

  /** The contributions of the towels of a list, in list order (the
      `map(...).sum()` over a bucket). */
  ghost function TermSum(pattern: string, bucket: seq<string>, towels: set<string>): nat
  {
    if bucket == [] then 0
    else TermSum(pattern, bucket[..|bucket| - 1], towels) + Term(pattern, bucket[|bucket| - 1], towels)
  }

  /** The towels of a list without repeats. */
  ghost predicate Distinct(bucket: seq<string>)
  {
    forall i, j :: 0 <= i < j < |bucket| ==> bucket[i] != bucket[j]
  }

  /** The towels of a list are those of its front and its last one. */
  lemma TowelSetLast(bucket: seq<string>)
    requires bucket != []
    ensures Day19a.TowelSet(bucket) == Day19a.TowelSet(bucket[..|bucket| - 1]) + {bucket[|bucket| - 1]}
  {
    var n := |bucket| - 1;
    forall t | t in Day19a.TowelSet(bucket[..n]) ensures t in Day19a.TowelSet(bucket) {
      var i :| 0 <= i < n && bucket[..n][i] == t;
      assert bucket[i] == t;
    }
  }

  /** Summing a list of distinct towels of `s` is taking them out of `s`. */
  lemma {:induction false} TermSumSplit(pattern: string, bucket: seq<string>, s: set<string>, towels: set<string>)
    requires Distinct(bucket)
    requires forall i :: 0 <= i < |bucket| ==> bucket[i] in s
    ensures WaysOver(pattern, s, towels)
      == TermSum(pattern, bucket, towels) + WaysOver(pattern, s - Day19a.TowelSet(bucket), towels)
    decreases |bucket|
  {
    if bucket == [] {
      assert s - Day19a.TowelSet(bucket) == s;
    } else {
      var n := |bucket| - 1;
      var front := bucket[..n];
      TermSumSplit(pattern, front, s, towels);
      var taken := Day19a.TowelSet(front);
      assert bucket[n] !in taken by {
        forall i | 0 <= i < n ensures front[i] != bucket[n] {
          assert front[i] == bucket[i];
        }
      }
      WaysOverRemove(pattern, s - taken, bucket[n], towels);
      var all := Day19a.TowelSet(bucket);
      TowelSetLast(bucket);
      assert s - taken - {bucket[n]} == s - all;
    }
  }

  /** The sum over the bucket of the pattern's first letter counts every
      way to lay out the pattern: towels filed under another letter cannot
      start it. */
  lemma BucketSum(pattern: string, choices: map<char, seq<string>>, towels: set<string>)
    requires Day19a.Bucketed(choices, towels) && pattern != [] && pattern[0] in choices
    ensures Ways(pattern, towels) == TermSum(pattern, choices[pattern[0]], towels)
  {
    var bucket := choices[pattern[0]];
    TermSumSplit(pattern, bucket, towels, towels);
    var rest := towels - Day19a.TowelSet(bucket);
    forall t | t in rest ensures Term(pattern, t, towels) == 0 {
      assert forall i :: 0 <= i < |bucket| ==> bucket[i] in Day19a.TowelSet(bucket);
      assert t !in bucket;
      assert t != [] && t[0] != pattern[0];
      if |t| <= |pattern| {
        assert pattern[..|t|][0] != t[0];
      }
    }
    WaysOverZero(pattern, rest, towels);
  }

  /** A pattern whose first letter files no towel has no way. */
  lemma NoBucketNoWays(pattern: string, choices: map<char, seq<string>>, towels: set<string>)
    requires Day19a.Bucketed(choices, towels) && pattern != [] && pattern[0] !in choices
    ensures Ways(pattern, towels) == 0
  {
    forall t | t in towels ensures Term(pattern, t, towels) == 0 {
      assert t != [] && t[0] in choices;
      if |t| <= |pattern| {
        assert pattern[..|t|][0] != t[0];
      }
    }
    WaysOverZero(pattern, towels, towels);
  }

  /** Some towel of `s` contributes exactly when the contributions of `s`
      add up to something. */
  lemma {:induction false} WaysOverPositive(pattern: string, s: set<string>, towels: set<string>)
    ensures WaysOver(pattern, s, towels) > 0 <==> exists t :: t in s && Term(pattern, t, towels) > 0
    decreases |s|
  {
    if s != {} {
      var t :| t in s && WaysOver(pattern, s, towels) == Term(pattern, t, towels) + WaysOver(pattern, s - {t}, towels);
      WaysOverPositive(pattern, s - {t}, towels);
    }
  }

  /** There is a way to lay out a pattern exactly when it is possible in
      the sense of part one. */
  lemma {:induction false} WaysPossible(pattern: string, towels: set<string>)
    ensures Ways(pattern, towels) > 0 <==> Day19a.Possible(pattern, towels)
    decreases |pattern|
  {
    if pattern != [] {
      WaysOverPositive(pattern, towels, towels);
      forall t | t in towels && t != [] && StartsWith(pattern, t)
        ensures Term(pattern, t, towels) > 0 <==> Day19a.Possible(pattern[|t|..], towels)
      {
        WaysPossible(pattern[|t|..], towels);
      }
    }
  }

  /** The `answers` map, shared across patterns. */
  class Answers {
    var known: map<string, nat>

    constructor ()
      ensures known == map[]
    {
      known := map[];
    }
  }

  /** Every remembered answer is the number of ways. */
  ghost predicate Exact(known: map<string, nat>, towels: set<string>)
  {
    forall q :: q in known ==> known[q] == Ways(q, towels)
  }

  /** `count_possible`: one way for the empty pattern; a remembered answer
      as it is; otherwise the sum over the towels filed under the first
      letter (nothing when there are none), which is then remembered. */
  method CountWays(pattern: string, choices: map<char, seq<string>>, ghost towels: set<string>, answers: Answers)
    returns (r: nat)
    requires Day19a.Bucketed(choices, towels) && Exact(answers.known, towels)
    modifies answers
    ensures r == Ways(pattern, towels)
    ensures Exact(answers.known, towels) && old(answers.known.Keys) <= answers.known.Keys
    decreases |pattern|
  {
    if pattern == [] {
      return 1;
    }
    if pattern in answers.known {
      return answers.known[pattern];
    }
    if pattern[0] !in choices {
      NoBucketNoWays(pattern, choices, towels);
      answers.known := answers.known[pattern := 0];
      return 0;
    }
    var bucket := choices[pattern[0]];
    r := 0;
    for i := 0 to |bucket|
      invariant Exact(answers.known, towels) && old(answers.known.Keys) <= answers.known.Keys
      invariant r == TermSum(pattern, bucket[..i], towels)
    {
      var t := bucket[i];
      assert t in towels && t != [];
      var ways := 0;
      if StartsWith(pattern, t) {
        ways := CountWays(pattern[|t|..], choices, towels, answers);
      }
      assert bucket[..i + 1][..i] == bucket[..i];
      r := r + ways;
    }
    assert bucket[..|bucket|] == bucket;
    BucketSum(pattern, choices, towels);
    answers.known := answers.known[pattern := r];
  }

  /** The ways of all the patterns together. */
  ghost function TotalWays(patterns: seq<string>, towels: set<string>): nat
  {
    if patterns == [] then 0
    else TotalWays(patterns[..|patterns| - 1], towels) + Ways(patterns[|patterns| - 1], towels)
  }

  /** The total is at least the number of possible patterns (each
      possible one has a way, the others none). */
  lemma {:induction false} TotalAtLeastPossible(patterns: seq<string>, towels: set<string>)
    ensures TotalWays(patterns, towels) >= Day19a.CountPossible(patterns, towels)
    ensures TotalWays(patterns, towels) == 0 <==> Day19a.CountPossible(patterns, towels) == 0
  {
    if patterns != [] {
      TotalAtLeastPossible(patterns[..|patterns| - 1], towels);
      WaysPossible(patterns[|patterns| - 1], towels);
    }
  }

  /** The `map(...).sum()` over the patterns, sharing one answer map. */
  method SumWays(patterns: seq<string>, choices: map<char, seq<string>>, ghost towels: set<string>)
    returns (total: nat)
    requires Day19a.Bucketed(choices, towels)
    ensures total == TotalWays(patterns, towels)
  {
    var answers := new Answers();
    total := 0;
    for i := 0 to |patterns|
      invariant Exact(answers.known, towels)
      invariant total == TotalWays(patterns[..i], towels)
    {
      var ways := CountWays(patterns[i], choices, towels, answers);
      assert patterns[..i + 1][..i] == patterns[..i];
      total := total + ways;
    }
    assert patterns[..|patterns|] == patterns;
  }

  /** `do_it`: the input is read as in part one, and the result is the
      total number of ways. */
  method Solve(lines: seq<string>) returns (r: Result<nat>)
    ensures r.Ok? <==> Day19a.ReadInput(lines).Ok?
    ensures r.Ok? ==> r.value == TotalWays(Day19a.ReadInput(lines).value.1, Day19a.ReadInput(lines).value.0)
  {
    var input := Day19a.ReadInput(lines);
    if input.Err? {
      return Err(input.msg);
    }
    var (towels, patterns) := input.value;
    var choices := Day19a.BuildBuckets(towels);
    var total := SumWays(patterns, choices, towels);
    return Ok(total);
  }
}
