/** Page ordering rules: a rule `l|r` says page `l` must come before page `r`.
    An update is in order when every page is followed only by pages its rules
    allow; the answer sums the middle pages of the updates that are in order. */
module Day05a {

  datatype Rule = Rule(left: nat, right: nat)

  /** The right-hand pages of the rules with left page `l`, in input order. */
  function RightsOf(rules: seq<Rule>, l: nat): (r: seq<nat>)
    ensures |r| <= |rules|
  {
    if rules == [] then []
    else
      var last := rules[|rules| - 1];
      RightsOf(rules[..|rules| - 1], l) + (if last.left == l then [last.right] else [])
  }

  lemma {:induction false} RightsOfIff(rules: seq<Rule>, l: nat, r: nat)
    ensures r in RightsOf(rules, l) <==> Rule(l, r) in rules
  {
    if rules != [] {
      var init := rules[..|rules| - 1];
      RightsOfIff(init, l, r);
      assert rules == init + [rules[|rules| - 1]];
    }
  }

  /** The rule map: one entry per left page that has rules, holding its right
      pages in input order. */
  ghost predicate Groups(m: map<nat, seq<nat>>, rules: seq<Rule>)
  {
    forall l :: (l in m <==> RightsOf(rules, l) != []) && (l in m ==> m[l] == RightsOf(rules, l))
  }

  /** A page followed by a page it has a rule for. */
  predicate Allowed(m: map<nat, seq<nat>>, l: nat, r: nat)
  {
    l in m && r in m[l]
  }

  /** Under the rule map, a pair is allowed exactly when the rule exists. */
  lemma AllowedIff(m: map<nat, seq<nat>>, rules: seq<Rule>, l: nat, r: nat)
    requires Groups(m, rules)
    ensures Allowed(m, l, r) <==> Rule(l, r) in rules
  {
    RightsOfIff(rules, l, r);
  }

  /** Grouping the rules by their left page. */
  method GroupRules(rules: seq<Rule>) returns (m: map<nat, seq<nat>>)
    ensures Groups(m, rules)
  {
    m := map[];
    for n := 0 to |rules|
      invariant Groups(m, rules[..n])
    {
      var rule := rules[n];
      assert rules[..n + 1][..n] == rules[..n];
      if rule.left in m {
        m := m[rule.left := m[rule.left] + [rule.right]];
      } else {
        m := m[rule.left := [rule.right]];
      }
    }
    assert rules[..|rules|] == rules;
  }

  /** An update is in order when a rule exists for every pair of pages in it,
      taken in the order they appear. */
  predicate InOrder(s: seq<nat>, rules: seq<Rule>)
  {
    forall i, j :: 0 <= i < j < |s| ==> Rule(s[i], s[j]) in rules
  }

  /** `is_sequence_valid`: for each page, every later page must be among its
      rule's right pages; a page with no rules may only be the last one. */
  method IsSequenceValid(s: seq<nat>, m: map<nat, seq<nat>>, ghost rules: seq<Rule>) returns (valid: bool)
    requires Groups(m, rules)
    ensures valid <==> InOrder(s, rules)
  {
    for i := 0 to |s|
      invariant forall a, b :: 0 <= a < i && a < b < |s| ==> Rule(s[a], s[b]) in rules
    {
      var value := s[i];
      if value in m {
        for j := i + 1 to |s|
          invariant forall b :: i < b < j ==> Rule(value, s[b]) in rules
        {
          AllowedIff(m, rules, value, s[j]);
          if s[j] !in m[value] {
            return false;
          }
        }
      } else if i + 1 < |s| {
        AllowedIff(m, rules, value, s[i + 1]);
        return false;
      }
    }
    return true;
  }

  /** Updates of zero or one page are always in order. */
  lemma ShortUpdatesInOrder(s: seq<nat>, rules: seq<Rule>)
    requires |s| <= 1
    ensures InOrder(s, rules)
  {
  }

  /** Every page of an in-order update except the last has rules of its own. */
  lemma InOrderNeedsRules(s: seq<nat>, m: map<nat, seq<nat>>, rules: seq<Rule>, i: nat)
    requires Groups(m, rules) && InOrder(s, rules) && i + 1 < |s|
    ensures s[i] in m
  {
    RightsOfIff(rules, s[i], s[i + 1]);
  }

  function Middle(s: seq<nat>): nat
    requires |s| >= 1
  {
    s[|s| / 2]
  }

  /** The middle pages of the in-order updates, summed. */
  function MiddleSum(updates: seq<seq<nat>>, rules: seq<Rule>): nat
    requires forall k :: 0 <= k < |updates| ==> |updates[k]| >= 1
  {
    if updates == [] then 0
    else
      var last := updates[|updates| - 1];
      MiddleSum(updates[..|updates| - 1], rules) + (if InOrder(last, rules) then Middle(last) else 0)
  }

  /** The answer: group the rules, keep the updates that are in order and sum
      their middle pages. Every update has at least one page, as the update
      line format demands. */
  method Solve(rules: seq<Rule>, updates: seq<seq<nat>>) returns (sum: nat)
    requires forall k :: 0 <= k < |updates| ==> |updates[k]| >= 1
    ensures sum == MiddleSum(updates, rules)
  {
    var m := GroupRules(rules);
    sum := 0;
    for k := 0 to |updates|
      invariant sum == MiddleSum(updates[..k], rules)
    {
      assert updates[..k + 1][..k] == updates[..k];
      var valid := IsSequenceValid(updates[k], m, rules);
      if valid {
        sum := sum + Middle(updates[k]);
      }
    }
    assert updates[..|updates|] == updates;
  }
}
