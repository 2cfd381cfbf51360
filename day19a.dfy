/** Linen layout, part one: a pattern of stripe colours is possible when it
    can be laid out from the available towels end to end (towels may be
    reused). The solver files the towels under their first letter and
    searches recursively, remembering the patterns it found impossible. */
module Day19a {
  import opened Common
  import opened Text

  /** `pattern` can be laid out from `towels`: it is empty, or some
      non-empty towel starts it and the rest can be laid out. */
  ghost predicate Possible(pattern: string, towels: set<string>)
    decreases |pattern|
  {
    pattern == [] ||
    exists t :: t in towels && t != [] && StartsWith(pattern, t) && Possible(pattern[|t|..], towels)
  }

  /** Towels laid end to end. */
  function Concat(ts: seq<string>): string
  {
    if ts == [] then [] else ts[0] + Concat(ts[1..])
  }

  /** Every towel of the list is one of `towels` and is not empty. */
  ghost predicate Towels(ts: seq<string>, towels: set<string>)
  {
    forall i :: 0 <= i < |ts| ==> ts[i] in towels && ts[i] != []
  }

  /** A list of towels lays out its concatenation. */
  lemma {:induction false} ConcatPossible(ts: seq<string>, towels: set<string>)
    requires Towels(ts, towels)
    ensures Possible(Concat(ts), towels)
    decreases |ts|
  {
    if ts != [] {
      var rest := Concat(ts[1..]);
      assert Towels(ts[1..], towels) by {
        forall i | 0 <= i < |ts| - 1 ensures ts[1..][i] in towels && ts[1..][i] != [] {
          assert ts[1..][i] == ts[i + 1];
        }
      }
      ConcatPossible(ts[1..], towels);
      Prefixed(ts[0], rest);
    }
  }

  /** A possible pattern is the concatenation of some list of towels. */
  lemma {:induction false} PossibleConcat(pattern: string, towels: set<string>)
    requires Possible(pattern, towels)
    ensures exists ts :: Towels(ts, towels) && Concat(ts) == pattern
    decreases |pattern|
  {
    if pattern == [] {
      assert Towels([], towels) && Concat([]) == pattern;
    } else {
      var t :| t in towels && t != [] && StartsWith(pattern, t) && Possible(pattern[|t|..], towels);
      PossibleConcat(pattern[|t|..], towels);
      var ts :| Towels(ts, towels) && Concat(ts) == pattern[|t|..];
      var all := [t] + ts;
      assert all[1..] == ts;
      assert Towels(all, towels) by {
        forall i | 0 <= i < |all| ensures all[i] in towels && all[i] != [] {
          if i > 0 { assert all[i] == ts[i - 1]; }
        }
      }
      StartsWithSplit(pattern, t);
      assert Concat(all) == pattern;
    }
  }

  /** `choices` files every towel under its first letter and holds
      nothing else (the `choices_by_first_latter` map). */
  ghost predicate Bucketed(choices: map<char, seq<string>>, towels: set<string>)
  {
    (forall t :: t in towels ==> t != [] && t[0] in choices && t in choices[t[0]]) &&
    (forall c :: c in choices ==> forall i :: 0 <= i < |choices[c]| ==>
       choices[c][i] in towels && choices[c][i][0] == c) &&
    (forall c :: c in choices ==> forall i, j :: 0 <= i < j < |choices[c]| ==> choices[c][i] != choices[c][j])
  }

  /** The loop that files the deduplicated towels under their first
      letter, each appended to its letter's list. */
  method BuildBuckets(towels: set<string>) returns (choices: map<char, seq<string>>)
    requires [] !in towels
    ensures Bucketed(choices, towels)
  {
    choices := map[];
    var rest := towels;
    while rest != {}
      invariant rest <= towels
      invariant Bucketed(choices, towels - rest)
      decreases |rest|
    {
      var t :| t in rest;
      var bucket := if t[0] in choices then choices[t[0]] else [];
      choices := choices[t[0] := bucket + [t]];
      rest := rest - {t};
    }
  }

  /** A pattern whose first letter files no towel cannot be laid out. */
  lemma NoBucket(pattern: string, choices: map<char, seq<string>>, towels: set<string>)
    requires Bucketed(choices, towels) && pattern != [] && pattern[0] !in choices
    ensures !Possible(pattern, towels)
  {
    forall t | t in towels
      ensures !StartsWith(pattern, t)
    {
      assert t != [] && t[0] in choices;
      if |t| <= |pattern| {
        assert pattern[..|t|][0] != t[0];
      }
    }
  }

  /** A pattern none of whose bucket's towels starts a possible rest
      cannot be laid out. */
  lemma BucketExhausted(pattern: string, choices: map<char, seq<string>>, towels: set<string>)
    requires Bucketed(choices, towels) && pattern != [] && pattern[0] in choices
    requires forall j :: 0 <= j < |choices[pattern[0]]| ==>
      !(StartsWith(pattern, choices[pattern[0]][j]) && Possible(pattern[|choices[pattern[0]][j]|..], towels))
    ensures !Possible(pattern, towels)
  {
    forall t | t in towels && t != [] && StartsWith(pattern, t)
      ensures !Possible(pattern[|t|..], towels)
    {
      assert t[0] == pattern[0];
      var j :| 0 <= j < |choices[pattern[0]]| && choices[pattern[0]][j] == t;
    }
  }

  /** The shared `unsolvable` set of patterns found impossible. */
  class Memo {
    var unsolvable: set<string>

    constructor ()
      ensures unsolvable == {}
    {
      unsolvable := {};
    }
  }

  /** Every remembered pattern is indeed impossible. */
  ghost predicate Sound(unsolvable: set<string>, towels: set<string>)
  {
    forall q :: q in unsolvable ==> !Possible(q, towels)
  }

  /** `is_possible`: the empty pattern is possible; a remembered pattern is
      not; otherwise the towels filed under the first letter are tried in
      order until one starts the pattern and leaves a possible rest, and a
      pattern for which none does is remembered. */
  method IsPossible(pattern: string, choices: map<char, seq<string>>, ghost towels: set<string>, memo: Memo)
    returns (r: bool)
    requires Bucketed(choices, towels) && Sound(memo.unsolvable, towels)
    modifies memo
    ensures r == Possible(pattern, towels)
    ensures Sound(memo.unsolvable, towels) && old(memo.unsolvable) <= memo.unsolvable
    decreases |pattern|
  {
    if pattern == [] {
      return true;
    }
    if pattern in memo.unsolvable {
      return false;
    }
    if pattern[0] !in choices {
      NoBucket(pattern, choices, towels);
      return false;
    }
    var bucket := choices[pattern[0]];
    r := false;
    var i := 0;
    while i < |bucket| && !r
      invariant 0 <= i <= |bucket|
      invariant Sound(memo.unsolvable, towels) && old(memo.unsolvable) <= memo.unsolvable
      invariant r ==> Possible(pattern, towels)
      invariant !r ==> forall j :: 0 <= j < i ==>
        !(StartsWith(pattern, bucket[j]) && Possible(pattern[|bucket[j]|..], towels))
    {
      var t := bucket[i];
      assert t in towels;
      if StartsWith(pattern, t) {
        r := IsPossible(pattern[|t|..], choices, towels, memo);
      }
      i := i + 1;
    }
    if !r {
      BucketExhausted(pattern, choices, towels);
      memo.unsolvable := memo.unsolvable + {pattern};
    }
  }

  /** How many of the patterns can be laid out. */
  ghost function CountPossible(patterns: seq<string>, towels: set<string>): nat
  {
    if patterns == [] then 0
    else CountPossible(patterns[..|patterns| - 1], towels) + (if Possible(patterns[|patterns| - 1], towels) then 1 else 0)
  }

  /** The `filter(...).count()` over the patterns, sharing one memo. */
  method CountPatterns(patterns: seq<string>, choices: map<char, seq<string>>, ghost towels: set<string>)
    returns (count: nat)
    requires Bucketed(choices, towels)
    ensures count == CountPossible(patterns, towels)
  {
    var memo := new Memo();
    count := 0;
    for i := 0 to |patterns|
      invariant Sound(memo.unsolvable, towels)
      invariant count == CountPossible(patterns[..i], towels)
    {
      var ok := IsPossible(patterns[i], choices, towels, memo);
      assert patterns[..i + 1][..i] == patterns[..i];
      if ok {
        count := count + 1;
      }
    }
    assert patterns[..|patterns|] == patterns;
  }

  /** The towels of the first line: split on commas, each piece trimmed. */
  function ReadTowels(line: string): (r: seq<string>)
    ensures |r| == |SplitOn(line, ',')|
    ensures forall i :: 0 <= i < |r| ==> r[i] == Trim(SplitOn(line, ',')[i])
  {
    var pieces := SplitOn(line, ',');
    seq(|pieces|, i requires 0 <= i < |pieces| => Trim(pieces[i]))
  }

  /** The deduplicated towels, as a set. */
  function TowelSet(ts: seq<string>): (r: set<string>)
    ensures forall t :: t in r <==> exists i :: 0 <= i < |ts| && ts[i] == t
  {
    set i | 0 <= i < |ts| :: ts[i]
  }

  /** What `do_it` reads: the towels on the first non-blank line and the
      patterns on the others. No line at all, or an empty towel, makes
      the source panic (an index out of bounds); here they are errors. */
  function ReadInput(lines: seq<string>): (r: Result<(set<string>, seq<string>)>)
    ensures r.Ok? <==> NonBlankLines(lines) != [] && [] !in TowelSet(ReadTowels(NonBlankLines(lines)[0]))
    ensures r.Ok? ==> r.value.0 == TowelSet(ReadTowels(NonBlankLines(lines)[0])) && r.value.1 == NonBlankLines(lines)[1..]
  {
    var kept := NonBlankLines(lines);
    if kept == [] then Err("no towel line")
    else
      var towels := TowelSet(ReadTowels(kept[0]));
      if [] in towels then Err("empty towel") else Ok((towels, kept[1..]))
  }

  /** `do_it`: the number of patterns that can be laid out. */
  method Solve(lines: seq<string>) returns (r: Result<nat>)
    ensures r.Ok? <==> ReadInput(lines).Ok?
    ensures r.Ok? ==> r.value == CountPossible(ReadInput(lines).value.1, ReadInput(lines).value.0)
  {
    var input := ReadInput(lines);
    if input.Err? {
      return Err(input.msg);
    }
    var (towels, patterns) := input.value;
    var choices := BuildBuckets(towels);
    var count := CountPatterns(patterns, choices, towels);
    return Ok(count);
  }
}
