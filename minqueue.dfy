/** The work queue the shortest-path searches share: the entry `max_by`
    picks when the comparison ranks smaller distances higher, and
    `Vec::swap_remove`. */
module MinQueue {
  import opened Common

  /** The error the searches stop with when the entry picked has no
      distance. */
  const NoDistance: string := "can't possibly have got to a node in the queue without there being some distance to it"

  /** The order the queue is scanned with: `a` ranks above `b` when it has a
      distance and `b` has none, or both have one and `a`'s is smaller. */
  predicate Above(a: Option<nat>, b: Option<nat>)
  {
    a.Some? && (b.None? || a.value < b.value)
  }

  /** `max_by` over the queue: the last entry that nothing ranks above. */
  function Pick(keys: seq<Option<nat>>): (r: nat)
    requires |keys| > 0
    ensures r < |keys|
    ensures forall i :: 0 <= i < |keys| ==> !Above(keys[i], keys[r])
    ensures forall i :: r < i < |keys| ==> Above(keys[r], keys[i])
  {
    if |keys| == 1 then 0
    else
      var b := Pick(keys[..|keys| - 1]);
      assert forall i :: 0 <= i < |keys| - 1 ==> keys[..|keys| - 1][i] == keys[i];
      if Above(keys[b], keys[|keys| - 1]) then b else |keys| - 1
  }

  /** `Vec::swap_remove`: the last element takes the place of the removed one. */
  function SwapRemove<T>(s: seq<T>, i: nat): (r: seq<T>)
    requires i < |s|
    ensures |r| == |s| - 1
    ensures multiset(r) == multiset(s) - multiset{s[i]}
  {
    var last := |s| - 1;
    if i == last then
      assert s == s[..last] + [s[last]];
      s[..last]
    else
      assert s == s[..i] + [s[i]] + s[i + 1..last] + [s[last]];
      s[..i] + [s[last]] + s[i + 1..last]
  }

  /** Removing slot `i` removes one copy of its entry and keeps every other
      entry. */
  lemma SwapRemoveKeeps<T>(s: seq<T>, i: nat, x: T)
    requires i < |s|
    ensures x in SwapRemove(s, i) ==> x in s
    ensures x in s && x != s[i] ==> x in SwapRemove(s, i)
  {
    assert x != s[i] ==> multiset(SwapRemove(s, i))[x] == multiset(s)[x];
    assert multiset(SwapRemove(s, i))[x] <= multiset(s)[x];
  }

  /** `max_by` settles on an entry without a distance only when no entry has one. */
  lemma PickedNothing(keys: seq<Option<nat>>, i: nat)
    requires |keys| > 0 && i == Pick(keys) && keys[i].None?
    ensures forall k :: 0 <= k < |keys| ==> keys[k].None?
  {
    forall k | 0 <= k < |keys| ensures keys[k].None? {
      assert !Above(keys[k], keys[i]);
    }
  }
}
