/** Page ordering, part two: every update that is out of order is rebuilt by a
    depth-first search over the rules, and the middle pages of the rebuilt
    updates are summed. The rule map (`Rules::new`) is `Day05a.GroupRules` and
    `Rules::check` is `Day05a.Allowed`. */
module Day05b {
  import opened Common
  import opened Day05a

  /** `Sequence::is_valid`'s criterion: each adjacent pair has a rule. */
  predicate Chained(s: seq<nat>, rules: seq<Rule>)
  {
    forall i :: 0 <= i < |s| - 1 ==> Rule(s[i], s[i + 1]) in rules
  }

  /** `Sequence::is_valid`: checks adjacent pairs only. The source computes
      `len() - 1` on an unsigned length, so it needs a non-empty update. */
  method IsValid(s: seq<nat>, m: map<nat, seq<nat>>, ghost rules: seq<Rule>) returns (valid: bool)
    requires |s| >= 1 && Groups(m, rules)
    ensures valid <==> Chained(s, rules)
  {
    for i := 0 to |s| - 1
      invariant forall k :: 0 <= k < i ==> Rule(s[k], s[k + 1]) in rules
    {
      AllowedIff(m, rules, s[i], s[i + 1]);
      if !Allowed(m, s[i], s[i + 1]) {
        return false;
      }
    }
    return true;
  }

  /** What part one accepts, part two accepts too. */
  lemma InOrderIsChained(s: seq<nat>, rules: seq<Rule>)
    requires InOrder(s, rules)
    ensures Chained(s, rules)
  {
    forall i | 0 <= i < |s| - 1 ensures Rule(s[i], s[i + 1]) in rules {
      assert i < i + 1;
    }
  }

  /** Part two's check is weaker: with the rules 1|2 and 2|3 only, [1, 2, 3]
      is chained but not in order. */
  lemma ChainedNotInOrder()
    ensures Chained([1, 2, 3], [Rule(1, 2), Rule(2, 3)])
    ensures !InOrder([1, 2, 3], [Rule(1, 2), Rule(2, 3)])
  {
    var s: seq<nat> := [1, 2, 3];
    assert Rule(s[0], s[2]) !in [Rule(1, 2), Rule(2, 3)];
  }

  predicate Distinct(s: seq<nat>)
  {
    forall i, j :: 0 <= i < j < |s| ==> s[i] != s[j]
  }

  /** `s` rearranges `update` into an order the rules allow: as long, no page
      twice, only pages of the update, every adjacent pair ruled. */
  predicate IsReordering(s: seq<nat>, update: seq<nat>, rules: seq<Rule>)
  {
    |s| == |update| && Distinct(s) && (forall x :: x in s ==> x in update) && Chained(s, rules)
  }

  /** When the update has no repeated page, a reordering holds exactly its pages. */
  lemma ReorderingIsPermutation(s: seq<nat>, update: seq<nat>, rules: seq<Rule>)
    requires IsReordering(s, update, rules) && Distinct(update)
    ensures multiset(s) == multiset(update)
  {
    var a, b := Elements(s), Elements(update);
    DistinctCard(s);
    DistinctCard(update);
    SubsetSameSize(a, b);
    DistinctMultiset(s);
    DistinctMultiset(update);
    forall x ensures multiset(s)[x] == multiset(update)[x] {
      assert x in s <==> x in a;
      assert x in update <==> x in b;
    }
  }

  function Elements(s: seq<nat>): set<nat>
  {
    set x | x in s
  }

  lemma {:induction false} SubsetSameSize(a: set<nat>, b: set<nat>)
    requires a <= b && |a| == |b|
    ensures a == b
    decreases |a|
  {
    if a != {} {
      var x :| x in a;
      SubsetSameSize(a - {x}, b - {x});
      assert a == (a - {x}) + {x};
      assert b == (b - {x}) + {x};
    }
  }

  lemma {:induction false} DistinctCard(s: seq<nat>)
    requires Distinct(s)
    ensures |Elements(s)| == |s|
  {
    if s != [] {
      var init := s[..|s| - 1];
      DistinctCard(init);
      var last := s[|s| - 1];
      assert s == init + [last];
      assert Elements(s) == Elements(init) + {last};
      assert last !in init;
    }
  }

  lemma {:induction false} DistinctMultiset(s: seq<nat>)
    requires Distinct(s)
    ensures forall x :: multiset(s)[x] == if x in s then 1 else 0
  {
    if s != [] {
      var init := s[..|s| - 1];
      DistinctMultiset(init);
      assert s == init + [s[|s| - 1]];
      assert s[|s| - 1] !in init;
    }
  }

  /** The search's termination measure: an entry whose partial order has
      `|p|` pages can still grow `n - 1 - |p|` levels, each with fewer than
      `b` branches. */
  ghost function Weight(paths: seq<seq<nat>>, n: nat, b: nat): nat
  {
    if paths == [] then 0
    else
      var last := paths[|paths| - 1];
      Weight(paths[..|paths| - 1], n, b) + (if |last| < n then Pow(b, n - 1 - |last|) else 0)
  }

  lemma WeightPush(paths: seq<seq<nat>>, p: seq<nat>, n: nat, b: nat)
    ensures Weight(paths + [p], n, b) == Weight(paths, n, b) + (if |p| < n then Pow(b, n - 1 - |p|) else 0)
  {
    assert (paths + [p])[..|paths|] == paths;
  }

  lemma MulLess(k: nat, b: nat, w: nat)
    requires k < b && w > 0
    ensures k * w < b * w
  {
  }

  /** The search state: each stack entry carries (ghost) the partial order it
      extends, which is a prefix of the current one, and the prefixes grow
      towards the top of the stack. */
  ghost predicate SearchInvariant(numbers: seq<nat>, toVisit: seq<(Option<nat>, nat)>,
                                  paths: seq<seq<nat>>, current: seq<nat>)
  {
    |paths| == |toVisit| &&
    (forall k :: 0 <= k < |paths| ==>
      |paths[k]| < |numbers| &&
      (toVisit[k].0.None? <==> paths[k] == []) &&
      (toVisit[k].0.Some? ==> paths[k] != [] && paths[k][|paths[k]| - 1] == toVisit[k].0.value) &&
      toVisit[k].1 in numbers && toVisit[k].1 !in paths[k] &&
      paths[k] <= current) &&
    (forall k1, k2 :: 0 <= k1 < k2 < |paths| ==> paths[k1] <= paths[k2]) &&
    Distinct(current) && (forall x :: x in current ==> x in numbers)
  }

  /** A distinct sequence ending in `p` that extends a prefix ending in `p` is that prefix. */
  lemma BacktrackStops(prefix: seq<nat>, current: seq<nat>, p: nat)
    requires prefix <= current && Distinct(current) && prefix != [] && prefix[|prefix| - 1] == p
    requires current[|current| - 1] == p
    ensures current == prefix
  {
    assert current[|prefix| - 1] == p;
    assert |prefix| - 1 == |current| - 1;
  }

  /** The inner loop that pops the partial order until its last page is the
      popped entry's predecessor `p`: it stops exactly at the entry's prefix. */
  method Backtrack(current0: seq<nat>, p: nat, ghost prefix: seq<nat>) returns (current: seq<nat>)
    requires prefix <= current0 && Distinct(current0) && prefix != [] && prefix[|prefix| - 1] == p
    ensures current == prefix
  {
    current := current0;
    while current != [] && current[|current| - 1] != p
      invariant prefix <= current && Distinct(current)
      decreases |current|
    {
      current := current[..|current| - 1];
    }
    BacktrackStops(prefix, current, p);
  }

  /** The top entry's prefix is a prefix of the partial order, and it ends
      in the entry's predecessor exactly when there is one. */
  lemma TopEntry(numbers: seq<nat>, toVisit: seq<(Option<nat>, nat)>, paths: seq<seq<nat>>, current: seq<nat>)
    requires SearchInvariant(numbers, toVisit, paths, current) && toVisit != []
    ensures var k := |toVisit| - 1;
      paths[k] <= current && Distinct(current) && (toVisit[k].0.None? <==> paths[k] == []) &&
      (toVisit[k].0.Some? ==> paths[k] != [] && paths[k][|paths[k]| - 1] == toVisit[k].0.value)
  {
  }

  /** Popping the top entry: the rest of the stack is consistent with the
      entry's own partial order, which its page extends without repetition. */
  lemma PopEntry(numbers: seq<nat>, toVisit: seq<(Option<nat>, nat)>, paths: seq<seq<nat>>, current: seq<nat>)
    requires SearchInvariant(numbers, toVisit, paths, current) && toVisit != []
    ensures var k := |toVisit| - 1;
      SearchInvariant(numbers, toVisit[..k], paths[..k], paths[k]) &&
      Distinct(paths[k] + [toVisit[k].1]) && |paths[k] + [toVisit[k].1]| <= |numbers|
  {
    var k := |toVisit| - 1;
    var prefix, next := paths[k], toVisit[k].1;
    assert prefix <= current;
    forall i | 0 <= i < |prefix| ensures prefix[i] == current[i] && prefix[i] in numbers {
    }
    var extended := prefix + [next];
    forall i, j | 0 <= i < j < |extended| ensures extended[i] != extended[j] {
      if j < |prefix| {
        assert extended[i] == current[i] && extended[j] == current[j];
      } else {
        assert extended[i] in prefix;
      }
    }
  }

  /** Appending a fresh page of the update keeps the invariant. */
  lemma ExtendCurrent(numbers: seq<nat>, toVisit: seq<(Option<nat>, nat)>, paths: seq<seq<nat>>,
                      prefix: seq<nat>, next: nat)
    requires SearchInvariant(numbers, toVisit, paths, prefix)
    requires next in numbers && Distinct(prefix + [next])
    ensures SearchInvariant(numbers, toVisit, paths, prefix + [next])
  {
    forall k | 0 <= k < |paths| ensures paths[k] <= prefix + [next] {
      assert paths[k] <= prefix;
    }
    forall x | x in prefix + [next] ensures x in numbers {
      assert x in prefix || x == next;
    }
  }

  /** Pushing a successor of the current partial order keeps the invariant. */
  lemma PushEntry(numbers: seq<nat>, toVisit: seq<(Option<nat>, nat)>, paths: seq<seq<nat>>,
                  current: seq<nat>, c: nat)
    requires SearchInvariant(numbers, toVisit, paths, current)
    requires current != [] && |current| < |numbers| && c in numbers && c !in current
    ensures SearchInvariant(numbers, toVisit + [(Some(current[|current| - 1]), c)], paths + [current], current)
  {
  }

  /** The successor loop: push every rule successor of the current last page
      that is a page of the update and not used yet. Fewer than `b` choices
      push fewer than `b` entries one level deeper, so the measure drops. */
  method PushSuccessors(numbers: seq<nat>, choices: seq<nat>, current: seq<nat>,
                        toVisit0: seq<(Option<nat>, nat)>, ghost paths0: seq<seq<nat>>, ghost b: nat)
    returns (toVisit: seq<(Option<nat>, nat)>, ghost paths: seq<seq<nat>>)
    requires SearchInvariant(numbers, toVisit0, paths0, current)
    requires current != [] && |current| < |numbers| && |choices| < b
    ensures SearchInvariant(numbers, toVisit, paths, current)
    ensures Weight(paths, |numbers|, b) < Weight(paths0, |numbers|, b) + Pow(b, |numbers| - |current|)
    ensures toVisit0 <= toVisit
  {
    var n := |numbers|;
    var next := current[|current| - 1];
    toVisit, paths := toVisit0, paths0;
    ghost var pushed: nat := 0;
    ghost var childWeight := Pow(b, n - 1 - |current|);
    assert Pow(b, n - |current|) == b * childWeight;
    for j := 0 to |choices|
      invariant SearchInvariant(numbers, toVisit, paths, current)
      invariant pushed <= j
      invariant Weight(paths, n, b) == Weight(paths0, n, b) + pushed * childWeight
      invariant toVisit0 <= toVisit
    {
      var c := choices[j];
      if c in numbers && c !in current {
        WeightPush(paths, current, n, b);
        PushEntry(numbers, toVisit, paths, current, c);
        toVisit := toVisit + [(Some(next), c)];
        paths := paths + [current];
        pushed := pushed + 1;
      }
    }
    PowPositive(b, n - 1 - |current|);
    MulLess(pushed, b, childWeight);
  }

  /** The top of the loop: pop the top entry, backtrack the partial order to
      the entry's predecessor (or clear it for a root), and append the entry's
      page. The popped entry's weight is what the measure loses. */
  method PopEntryAndExtend(numbers: seq<nat>, toVisit0: seq<(Option<nat>, nat)>, ghost paths0: seq<seq<nat>>,
                           current0: seq<nat>, ghost b: nat)
    returns (toVisit: seq<(Option<nat>, nat)>, ghost paths: seq<seq<nat>>, current: seq<nat>, next: nat)
    requires SearchInvariant(numbers, toVisit0, paths0, current0) && toVisit0 != [] && b > 0
    ensures var k := |toVisit0| - 1;
      toVisit == toVisit0[..k] && paths == paths0[..k] && next == toVisit0[k].1 &&
      current == paths0[k] + [next] && |current| <= |numbers| &&
      SearchInvariant(numbers, toVisit, paths, paths0[k]) &&
      SearchInvariant(numbers, toVisit, paths, current)
    ensures var n := |numbers|;
      Weight(paths, n, b) < Weight(paths0, n, b) &&
      Weight(paths0, n, b) == Weight(paths, n, b) + Pow(b, n - |current|)
  {
    var k := |toVisit0| - 1;
    var prev;
    prev, next := toVisit0[k].0, toVisit0[k].1;
    toVisit := toVisit0[..k];
    paths := paths0[..k];
    ghost var prefix := paths0[k];
    PopFacts(numbers, toVisit0, paths0, current0, b);
    match prev {
      case Some(p) =>
        current := Backtrack(current0, p, prefix);
      case None =>
        current := [];
    }
    current := current + [next];
  }

  /** What popping the top entry needs and gives: its prefix is where
      backtracking stops, the rest of the stack is consistent with the prefix
      and with the prefix extended by the entry's page, and the measure loses
      the entry's weight. */
  lemma PopFacts(numbers: seq<nat>, toVisit0: seq<(Option<nat>, nat)>, paths0: seq<seq<nat>>,
                 current0: seq<nat>, b: nat)
    requires SearchInvariant(numbers, toVisit0, paths0, current0) && toVisit0 != [] && b > 0
    ensures var k, n := |toVisit0| - 1, |numbers|;
      var prefix, prev, next := paths0[k], toVisit0[k].0, toVisit0[k].1;
      prefix <= current0 && Distinct(current0) && (prev.None? <==> prefix == []) &&
      (prev.Some? ==> prefix != [] && prefix[|prefix| - 1] == prev.value) &&
      |prefix + [next]| <= n &&
      SearchInvariant(numbers, toVisit0[..k], paths0[..k], prefix) &&
      SearchInvariant(numbers, toVisit0[..k], paths0[..k], prefix + [next]) &&
      Weight(paths0[..k], n, b) < Weight(paths0, n, b) &&
      Weight(paths0, n, b) == Weight(paths0[..k], n, b) + Pow(b, n - |prefix + [next]|)
  {
    var k, n := |toVisit0| - 1, |numbers|;
    var prefix, next := paths0[k], toVisit0[k].1;
    TopEntry(numbers, toVisit0, paths0, current0);
    assert SearchInvariant(numbers, toVisit0[..k], paths0[..k], prefix) &&
      Distinct(prefix + [next]) && |prefix + [next]| <= n && next in numbers by {
      PopEntry(numbers, toVisit0, paths0, current0);
    }
    ExtendCurrent(numbers, toVisit0[..k], paths0[..k], prefix, next);
    assert Weight(paths0, n, b) == Weight(paths0[..k], n, b) + Pow(b, n - 1 - |prefix|) by {
      WeightPush(paths0[..k], prefix, n, b);
      assert paths0 == paths0[..k] + [prefix];
    }
    PowPositive(b, n - 1 - |prefix|);
  }

  /** `Sequence::new_with_numbers`: depth-first search with an explicit stack.
      One root per page of the update; popping an entry first backtracks the
      partial order to the entry's predecessor, then appends the entry's page.
      A full-length candidate is returned when `is_valid` accepts it;
      otherwise the successors allowed by the rules that are pages of the
      update and not yet used are pushed. None once the stack is empty. */
  method NewWithNumbers(numbers: seq<nat>, m: map<nat, seq<nat>>, ghost rules: seq<Rule>)
    returns (r: Option<seq<nat>>)
    requires Groups(m, rules)
    ensures r.Some? ==> IsReordering(r.value, numbers, rules)
  {
    var n := |numbers|;
    ghost var b := |rules| + 1;
    var toVisit: seq<(Option<nat>, nat)> := seq(n, k requires 0 <= k < n => (None, numbers[k]));
    ghost var paths: seq<seq<nat>> := seq(n, k requires 0 <= k < n => []);
    var current: seq<nat> := [];
    while toVisit != []
      invariant SearchInvariant(numbers, toVisit, paths, current)
      decreases Weight(paths, n, b)
    {
      ghost var prefix, weight := paths[|paths| - 1], Weight(paths, n, b);
      var next;
      toVisit, paths, current, next := PopEntryAndExtend(numbers, toVisit, paths, current, b);
      if |current| == n {
        var ok := IsValid(current, m, rules);
        if ok {
          return Some(current);
        }
        current := current[..|current| - 1];
        assert current == prefix;
        continue;
      }
      if next in m {
        assert |m[next]| < b;
        toVisit, paths := PushSuccessors(numbers, m[next], current, toVisit, paths, b);
      }
    }
    return None;
  }

  /** The updates that are not already chained, in input order. */
  function Unchained(updates: seq<seq<nat>>, rules: seq<Rule>): (r: seq<seq<nat>>)
    ensures |r| <= |updates|
    ensures forall k :: 0 <= k < |r| ==> !Chained(r[k], rules) && r[k] in updates
  {
    if updates == [] then []
    else
      var last := updates[|updates| - 1];
      var init := Unchained(updates[..|updates| - 1], rules);
      init + (if Chained(last, rules) then [] else [last])
  }

  function MiddleSumAll(updates: seq<seq<nat>>): nat
    requires forall k :: 0 <= k < |updates| ==> |updates[k]| >= 1
  {
    if updates == [] then 0
    else MiddleSumAll(updates[..|updates| - 1]) + Middle(updates[|updates| - 1])
  }

  /** Every rebuilt update is a reordering of the unchained update at the same
      position, and none is empty. */
  ghost predicate Rebuilt(fixed: seq<seq<nat>>, unchained: seq<seq<nat>>, rules: seq<Rule>)
  {
    |fixed| == |unchained| &&
    forall i :: 0 <= i < |fixed| ==> IsReordering(fixed[i], unchained[i], rules) && |fixed[i]| >= 1
  }

  /** One more update is looked at: it joins the unchained list exactly when it
      breaks a rule. */
  lemma UnchainedStep(updates: seq<seq<nat>>, k: nat, rules: seq<Rule>)
    requires k < |updates|
    ensures Unchained(updates[..k + 1], rules) ==
      Unchained(updates[..k], rules) + (if Chained(updates[k], rules) then [] else [updates[k]])
  {
    assert updates[..k + 1][..k] == updates[..k];
  }

  /** Appending a rebuilt update keeps the pairing and adds its middle page. */
  lemma RebuiltPush(fixed: seq<seq<nat>>, unchained: seq<seq<nat>>, f: seq<nat>, u: seq<nat>,
                    rules: seq<Rule>)
    requires Rebuilt(fixed, unchained, rules) && IsReordering(f, u, rules) && |f| >= 1
    ensures Rebuilt(fixed + [f], unchained + [u], rules)
    ensures MiddleSumAll(fixed + [f]) == MiddleSumAll(fixed) + Middle(f)
  {
    assert (fixed + [f])[..|fixed|] == fixed;
  }

  /** The rules order the update's pages strictly and totally: of two
      different pages exactly one rule is present, and the rules are
      transitive on the pages. Puzzle inputs are made this way. */
  ghost predicate StrictTotalOn(update: seq<nat>, rules: seq<Rule>)
  {
    (forall x, y :: x in update && y in update && x != y ==>
      (Rule(x, y) in rules <==> Rule(y, x) !in rules)) &&
    (forall x, y, z ::
      x in update && y in update && z in update && Rule(x, y) in rules && Rule(y, z) in rules ==>
      Rule(x, z) in rules)
  }

  lemma {:induction false} ChainedReach(s: seq<nat>, update: seq<nat>, rules: seq<Rule>, i: nat, j: nat)
    requires Chained(s, rules) && StrictTotalOn(update, rules) && forall x :: x in s ==> x in update
    requires i < j < |s|
    ensures Rule(s[i], s[j]) in rules
    decreases j - i
  {
    if j > i + 1 {
      ChainedReach(s, update, rules, i, j - 1);
      assert Rule(s[j - 1], s[j]) in rules;
      assert s[i] in update && s[j - 1] in update && s[j] in update;
    }
  }

  /** Under a transitive order, ruled adjacent pairs make every pair ruled. */
  lemma ChainedInOrder(s: seq<nat>, update: seq<nat>, rules: seq<Rule>)
    requires Chained(s, rules) && StrictTotalOn(update, rules) && forall x :: x in s ==> x in update
    ensures InOrder(s, rules)
  {
    forall i, j | 0 <= i < j < |s| ensures Rule(s[i], s[j]) in rules {
      ChainedReach(s, update, rules, i, j);
    }
  }

  /** Two in-order arrangements of the same pages, under an asymmetric order,
      are the same sequence. */
  lemma {:induction false} InOrderUnique(s: seq<nat>, t: seq<nat>, update: seq<nat>, rules: seq<Rule>)
    requires multiset(s) == multiset(t) && InOrder(s, rules) && InOrder(t, rules)
    requires StrictTotalOn(update, rules) && forall x :: x in s ==> x in update
    ensures s == t
  {
    assert |s| == |multiset(s)| == |t|;
    if s != [] {
      SameFirst(s, t, update, rules);
      assert s == [s[0]] + s[1..] && t == [t[0]] + t[1..];
      assert multiset(s) == multiset{s[0]} + multiset(s[1..]);
      assert multiset(t) == multiset{t[0]} + multiset(t[1..]);
      InOrderTail(s, rules);
      InOrderTail(t, rules);
      assert forall x :: x in s[1..] ==> x in s;
      assert multiset(s[1..]) == multiset(s) - multiset{s[0]} == multiset(t) - multiset{t[0]} == multiset(t[1..]);
      InOrderUnique(s[1..], t[1..], update, rules);
    }
  }

  /** Both arrangements start with the page that precedes all others. */
  lemma SameFirst(s: seq<nat>, t: seq<nat>, update: seq<nat>, rules: seq<Rule>)
    requires multiset(s) == multiset(t) && InOrder(s, rules) && InOrder(t, rules)
    requires StrictTotalOn(update, rules) && forall x :: x in s ==> x in update
    requires |s| >= 1 && |t| >= 1
    ensures s[0] == t[0]
  {
    assert s[0] in multiset(t) && t[0] in multiset(s);
    if s[0] != t[0] {
      assert false;
    }
  }

  lemma InOrderTail(s: seq<nat>, rules: seq<Rule>)
    requires InOrder(s, rules) && |s| >= 1
    ensures InOrder(s[1..], rules)
  {
    forall i, j | 0 <= i < j < |s| - 1 ensures Rule(s[1..][i], s[1..][j]) in rules {
      assert Rule(s[i + 1], s[j + 1]) in rules;
    }
  }

  /** When the rules totally order an update without repeated pages, it has
      only one reordering, so the search's choice does not matter. */
  lemma ReorderingUnique(s: seq<nat>, t: seq<nat>, update: seq<nat>, rules: seq<Rule>)
    requires IsReordering(s, update, rules) && IsReordering(t, update, rules)
    requires Distinct(update) && StrictTotalOn(update, rules)
    ensures s == t
  {
    ReorderingIsPermutation(s, update, rules);
    ReorderingIsPermutation(t, update, rules);
    ChainedInOrder(s, update, rules);
    ChainedInOrder(t, update, rules);
    InOrderUnique(s, t, update, rules);
  }

  /** The pages of the update that a rule puts before `x`. */
  function Preceding(x: nat, update: seq<nat>, rules: seq<Rule>): set<nat>
  {
    set y | y in update && y != x && Rule(y, x) in rules
  }

  /** In the reordering, the page at position `i` has exactly `i` pages ruled
      before it. */
  lemma RankOf(s: seq<nat>, update: seq<nat>, rules: seq<Rule>, i: nat)
    requires IsReordering(s, update, rules) && Distinct(update) && StrictTotalOn(update, rules)
    requires i < |s|
    ensures |Preceding(s[i], update, rules)| == i
  {
    ReorderingIsPermutation(s, update, rules);
    ChainedInOrder(s, update, rules);
    forall y ensures y in Preceding(s[i], update, rules) <==> y in Elements(s[..i]) {
      assert y in update <==> y in multiset(s);
      if y in Preceding(s[i], update, rules) {
        var k :| 0 <= k < |s| && s[k] == y;
        if k > i {
          assert false;
        }
        assert s[..i][k] == y;
      }
      if y in Elements(s[..i]) {
        var k :| 0 <= k < i && s[..i][k] == y;
        assert Rule(s[k], s[i]) in rules;
        assert s[k] in multiset(s);
      }
    }
    assert Preceding(s[i], update, rules) == Elements(s[..i]);
    assert Distinct(s[..i]);
    DistinctCard(s[..i]);
  }

  /** The middle page of the reordering is the page of the update that exactly
      half the others precede, and no other page is. */
  lemma MiddleByRank(s: seq<nat>, update: seq<nat>, rules: seq<Rule>)
    requires IsReordering(s, update, rules) && Distinct(update) && StrictTotalOn(update, rules)
    requires |s| >= 1
    ensures |Preceding(Middle(s), update, rules)| == |update| / 2
    ensures forall x :: x in update && |Preceding(x, update, rules)| == |update| / 2 ==> x == Middle(s)
  {
    RankOf(s, update, rules, |s| / 2);
    ReorderingIsPermutation(s, update, rules);
    forall x | x in update && |Preceding(x, update, rules)| == |update| / 2 ensures x == Middle(s) {
      assert x in multiset(s);
      var k :| 0 <= k < |s| && s[k] == x;
      RankOf(s, update, rules, k);
    }
  }

  /** Every update that the rules order totally has its one rebuilt form. */
  ghost predicate TotallyOrdered(unchained: seq<seq<nat>>, rules: seq<Rule>)
  {
    forall k :: 0 <= k < |unchained| ==> Distinct(unchained[k]) && StrictTotalOn(unchained[k], rules)
  }

  /** Under total orders the rebuilt list is unique and each middle page is
      the page ranked at half its update's length. */
  lemma RebuiltUnique(fixed: seq<seq<nat>>, other: seq<seq<nat>>, unchained: seq<seq<nat>>, rules: seq<Rule>)
    requires Rebuilt(fixed, unchained, rules) && Rebuilt(other, unchained, rules)
    requires TotallyOrdered(unchained, rules)
    ensures fixed == other
    ensures forall k :: 0 <= k < |fixed| ==>
      |Preceding(Middle(fixed[k]), unchained[k], rules)| == |unchained[k]| / 2
  {
    forall k | 0 <= k < |fixed|
      ensures fixed[k] == other[k]
      ensures |Preceding(Middle(fixed[k]), unchained[k], rules)| == |unchained[k]| / 2
    {
      ReorderingUnique(fixed[k], other[k], unchained[k], rules);
      MiddleByRank(fixed[k], unchained[k], rules);
    }
  }

  /** The answer: every unchained update is rebuilt, the whole answer fails as
      soon as one cannot be, and the middle pages of the rebuilt updates are
      summed. Only an unchained update can make it fail. */
  method Solve(rules: seq<Rule>, updates: seq<seq<nat>>) returns (r: Result<nat>, ghost fixed: seq<seq<nat>>)
    requires forall k :: 0 <= k < |updates| ==> |updates[k]| >= 1
    ensures r.Err? ==> exists k :: 0 <= k < |updates| && !Chained(updates[k], rules)
    ensures r.Ok? ==> |fixed| == |Unchained(updates, rules)|
    ensures r.Ok? ==> forall k :: 0 <= k < |fixed| ==> IsReordering(fixed[k], Unchained(updates, rules)[k], rules)
    ensures r.Ok? ==> (forall k :: 0 <= k < |fixed| ==> |fixed[k]| >= 1) && r.value == MiddleSumAll(fixed)
    ensures r.Ok? && TotallyOrdered(Unchained(updates, rules), rules) ==>
      forall other :: Rebuilt(other, Unchained(updates, rules), rules) ==> other == fixed
    ensures r.Ok? && TotallyOrdered(Unchained(updates, rules), rules) ==>
      forall k :: 0 <= k < |fixed| ==>
        |Preceding(Middle(fixed[k]), Unchained(updates, rules)[k], rules)| == |Unchained(updates, rules)[k]| / 2
  {
    var m := GroupRules(rules);
    var sum := 0;
    fixed := [];
    for k := 0 to |updates|
      invariant Rebuilt(fixed, Unchained(updates[..k], rules), rules)
      invariant sum == MiddleSumAll(fixed)
    {
      UnchainedStep(updates, k, rules);
      var valid := IsValid(updates[k], m, rules);
      if !valid {
        var found := NewWithNumbers(updates[k], m, rules);
        if found.None? {
          return Err("failed to find a valid ordering for at least one sequence"), fixed;
        }
        assert |found.value| >= 1 by { assert |found.value| == |updates[k]|; }
        RebuiltPush(fixed, Unchained(updates[..k], rules), found.value, updates[k], rules);
        fixed := fixed + [found.value];
        sum := sum + Middle(found.value);
      }
    }
    assert updates[..|updates|] == updates;
    if TotallyOrdered(Unchained(updates, rules), rules) {
      forall other | Rebuilt(other, Unchained(updates, rules), rules) ensures other == fixed {
        RebuiltUnique(other, fixed, Unchained(updates, rules), rules);
      }
      RebuiltUnique(fixed, fixed, Unchained(updates, rules), rules);
    }
    return Ok(sum), fixed;
  }
}
