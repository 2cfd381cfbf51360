/** Similarity of two id columns: each left id weighted by how often it
    occurs in the right column. Lines are parsed as for the distance puzzle. */
module Day01b {
  import opened Common
  import Day01a

  /** The fold that counts occurrences: one entry per distinct value. */
  function Counts(s: seq<int>): (m: map<int, nat>)
    ensures forall x :: x in m <==> x in s
    ensures forall x :: x in m ==> m[x] == multiset(s)[x]
  {
    if s == [] then map[]
    else
      var prefix, x := s[..|s| - 1], s[|s| - 1];
      assert s == prefix + [x];
      var m := Counts(prefix);
      m[x := if x in m then m[x] + 1 else 1]
  }

  /** Each left value times its count, 0 for values missing from the map. */
  function Similarity(left: seq<int>, counts: map<int, nat>): int
  {
    if left == [] then 0
    else (if left[0] in counts then left[0] * counts[left[0]] else 0) + Similarity(left[1..], counts)
  }

  /** Reference definition: each left value times its multiplicity on the right. */
  function WeightedOccurrences(left: seq<int>, right: seq<int>): int
  {
    if left == [] then 0 else left[0] * multiset(right)[left[0]] + WeightedOccurrences(left[1..], right)
  }

  /** The map-based computation equals the multiset definition. */
  lemma {:induction false} SimilarityIsWeightedOccurrences(left: seq<int>, right: seq<int>)
    ensures Similarity(left, Counts(right)) == WeightedOccurrences(left, right)
  {
    if left != [] {
      SimilarityIsWeightedOccurrences(left[1..], right);
    }
  }

  /** Left values that never occur on the right contribute nothing. */
  lemma {:induction false} DisjointColumnsScoreZero(left: seq<int>, right: seq<int>)
    requires forall i :: 0 <= i < |left| ==> left[i] !in right
    ensures Similarity(left, Counts(right)) == 0
  {
    if left != [] {
      DisjointColumnsScoreZero(left[1..], right);
    }
  }

  /** The similarity is additive over the left column. */
  lemma {:induction false} SimilarityAppend(a: seq<int>, b: seq<int>, counts: map<int, nat>)
    ensures Similarity(a + b, counts) == Similarity(a, counts) + Similarity(b, counts)
  {
    if a == [] {
      assert a + b == b;
    } else {
      assert (a + b)[1..] == a[1..] + b;
      SimilarityAppend(a[1..], b, counts);
    }
  }

  /** The whole solver: parse both columns, count the right one, score the left one. */
  function Solve(lines: seq<string>): (r: Result<int>)
    ensures r.Ok? ==> exists left, right :: Day01a.ParseColumns(lines) == Ok((left, right)) &&
                                             r.value == WeightedOccurrences(left, right)
  {
    var (left, right) :- Day01a.ParseColumns(lines);
    SimilarityIsWeightedOccurrences(left, right);
    Ok(Similarity(left, Counts(right)))
  }
}
