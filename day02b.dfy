/** Reactor reports with the problem dampener: a report also counts when
    removing a single level makes it safe. `is_good` is the same loop as the
    safety filter, modelled once as `Day02a.ReportIsSafe`. */
module Day02b {
  import opened Common
  import opened Day02a

  /** `duplicate_without_index`: the filter over enumerated elements that
      keeps every index except `k`. */
  function WithoutIndex<T>(s: seq<T>, k: nat): (r: seq<T>)
    ensures |r| == if k < |s| then |s| - 1 else |s|
  {
    if s == [] then []
    else
      var prefix := s[..|s| - 1];
      WithoutIndex(prefix, k) + (if |s| - 1 != k then [s[|s| - 1]] else [])
  }

  /** The filter keeps the elements before and after the index, in order. */
  lemma {:induction false} WithoutIndexSlices<T>(s: seq<T>, k: nat)
    ensures WithoutIndex(s, k) == if k < |s| then s[..k] + s[k + 1..] else s
  {
    if s != [] {
      var prefix := s[..|s| - 1];
      WithoutIndexSlices(prefix, k);
      assert s == prefix + [s[|s| - 1]];
      if k < |s| - 1 {
        assert s[k + 1..] == prefix[k + 1..] + [s[|s| - 1]];
      }
    }
  }

  /** Safe as it is, or safe after dropping one level. */
  predicate Tolerated(r: seq<int>)
  {
    Safe(r) || SafeAfterRemoval(r)
  }

  /** Dropping some one level leaves a safe report. */
  predicate SafeAfterRemoval(r: seq<int>)
  {
    exists k: nat :: k < |r| && Safe(WithoutIndex(r, k))
  }

  /** Every report of at most two levels is safe after one removal. */
  lemma ShortReportsTolerated(r: seq<int>)
    requires 1 <= |r| <= 2
    ensures Tolerated(r)
  {
    WithoutIndexSlices(r, 0);
    assert Safe(WithoutIndex(r, 0));
  }

  /** A safe report stays safe when its first level is dropped, so the
      dampener never rejects what the plain rule accepts. */
  lemma SafeDropFirst(r: seq<int>)
    requires |r| >= 1 && Safe(r)
    ensures Safe(WithoutIndex(r, 0))
  {
    SafeTail(r);
    WithoutIndexSlices(r, 0);
    assert WithoutIndex(r, 0) == r[1..];
  }

  lemma SafeTail(r: seq<int>)
    requires |r| >= 1 && Safe(r)
    ensures Safe(r[1..])
  {
    var t := r[1..];
    SafeIffMonotone(r);
    SafeIffMonotone(t);
    assert Rising(r) ==> Rising(t) by {
      if Rising(r) {
        forall i | 0 <= i < |t| - 1 ensures t[i] + 1 <= t[i + 1] <= t[i] + 3 {
          assert t[i] == r[i + 1] && t[i + 1] == r[i + 2];
        }
      }
    }
    assert Falling(r) ==> Falling(t) by {
      if Falling(r) {
        forall i | 0 <= i < |t| - 1 ensures t[i] - 3 <= t[i + 1] <= t[i] - 1 {
          assert t[i] == r[i + 1] && t[i + 1] == r[i + 2];
        }
      }
    }
  }

  /** The filter in the solver: the plain rule first, then every single removal. */
  method ReportIsTolerated(r: seq<int>) returns (ok: bool)
    requires |r| >= 1
    ensures ok == Tolerated(r)
  {
    ok := ReportIsSafe(r);
    if !ok {
      assert |r| >= 2;
      ok := SomeRemovalSafe(r);
    }
  }

  /** The removal loop: stops at the first index whose removal leaves a safe
      report. It runs only on unsafe reports, which have two levels or more. */
  method SomeRemovalSafe(r: seq<int>) returns (ok: bool)
    requires |r| >= 2
    ensures ok == SafeAfterRemoval(r)
  {
    for i := 0 to |r|
      invariant forall k: nat :: k < i ==> !Safe(WithoutIndex(r, k))
    {
      var dampened := WithoutIndex(r, i);
      var good := ReportIsSafe(dampened);
      if good {
        return true;
      }
    }
    return false;
  }

  /** Number of reports the dampened rule accepts. */
  method CountTolerated(reports: seq<seq<int>>) returns (count: nat)
    requires forall i :: 0 <= i < |reports| ==> |reports[i]| >= 1
    ensures count == CountWhere(reports, Tolerated)
  {
    count := 0;
    for n := 0 to |reports|
      invariant count == CountWhere(reports[..n], Tolerated)
    {
      var ok := ReportIsTolerated(reports[n]);
      CountStep(reports, n, Tolerated);
      if ok {
        count := count + 1;
      }
    }
    assert reports[..|reports|] == reports;
  }

  /** `do_it`: read the reports as part one does, then count the ones the
      dampened rule accepts. */
  method Solve(lines: seq<string>) returns (r: Result<nat>)
    ensures r.Ok? <==> ParseReports(lines).Ok?
    ensures r.Err? ==> ParseReports(lines) == Err(r.msg)
    ensures r.Ok? ==> var reports := ParseReports(lines).value;
      r.value == CountWhere(reports, Tolerated)
  {
    var reports := ParseReports(lines);
    if reports.Err? {
      return Err(reports.msg);
    }
    var count := CountTolerated(reports.value);
    return Ok(count);
  }
}
