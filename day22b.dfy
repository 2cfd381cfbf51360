/** Monkey market prices, as this solver computes them: while every buyer's
    secret evolves 2000 times, the ones digit of the secret before each step
    is recorded under the window of the last (up to) four price changes, per
    buyer, keeping the largest; the answer is the best total over windows.
    The window is carried over from one buyer to the next, windows shorter
    than four changes are keys too, and the recorded price is the one before
    the change that is about to be pushed. */
module Day22b {
  import opened Common
  import opened Text
  import opened Day22a

  /** One entry of the table: the window it is recorded under, the buyer's
      starting number, and a price. */
  datatype Entry = Entry(window: seq<int>, number: nat, price: nat)

  /** `best`: window -> starting number -> largest price seen. */
  type Table = map<seq<int>, map<nat, nat>>

  /** The price change from one secret to the next: the difference of ones digits. */
  function Delta(before: nat, after: nat): (d: int)
    ensures -9 <= d <= 9
    ensures d == (after % 10) as int - (before % 10) as int
  {
    after % 10 - before % 10
  }

  /** The last four elements of `s`, or all of them when there are fewer. */
  function Last4(s: seq<int>): (r: seq<int>)
    ensures |r| <= 4 && |r| <= |s| && r == s[|s| - |r|..]
    ensures |s| >= 4 ==> |r| == 4
  {
    if |s| <= 4 then s else s[|s| - 4..]
  }

  /** Keeping the last four before appending does not change the last four after. */
  lemma Last4Push(s: seq<int>, d: int)
    ensures Last4(Last4(s) + [d]) == Last4(s + [d])
  {
    var t := s + [d];
    if |s| > 4 {
      assert Last4(s) + [d] == t[|t| - 5..];
      assert Last4(t[|t| - 5..]) == t[|t| - 4..];
    }
  }

  /** The first `n` price changes of buyer `x`. */
  function Deltas(x: nat, n: nat): (r: seq<int>)
    requires Fits(x)
    ensures |r| == n
  {
    if n == 0 then [] else Deltas(x, n - 1) + [Delta(Evolve(x, n - 1), Evolve(x, n))]
  }

  lemma DeltasStep(x: nat, before: seq<int>, j: nat)
    requires Fits(x)
    ensures before + Deltas(x, j + 1) == (before + Deltas(x, j)) + [Delta(Evolve(x, j), Evolve(x, j + 1))]
  {
    assert Deltas(x, j + 1) == Deltas(x, j) + [Delta(Evolve(x, j), Evolve(x, j + 1))];
  }

  predicate AllFit(input: seq<nat>)
  {
    forall i :: 0 <= i < |input| ==> Fits(input[i])
  }

  /** Every price change of the buyers in order, one buyer after the other. */
  function Stream(input: seq<nat>): (r: seq<int>)
    requires AllFit(input)
    ensures |r| == 2000 * |input|
  {
    if input == [] then [] else Stream(input[..|input| - 1]) + Deltas(input[|input| - 1], 2000)
  }

  /** The entries of buyer `x`'s first `j` steps, after the changes `before`
      of the buyers ahead of it: at step `i` the price `Evolve(x, i) % 10`
      under the last four changes so far. */
  function BuyerEntries(x: nat, before: seq<int>, j: nat): (r: seq<Entry>)
    requires Fits(x)
    ensures |r| == j
    ensures forall i :: 0 <= i < j ==> |r[i].window| <= 4 && r[i].number == x && r[i].price < 10
  {
    if j == 0 then []
    else BuyerEntries(x, before, j - 1) + [Entry(Last4(before + Deltas(x, j - 1)), x, Evolve(x, j - 1) % 10)]
  }

  /** All entries of all buyers, in the order the loops record them. */
  function Entries(input: seq<nat>): (r: seq<Entry>)
    requires AllFit(input)
    ensures |r| == 2000 * |input|
  {
    if input == [] then []
    else
      var front := input[..|input| - 1];
      Entries(front) + BuyerEntries(input[|input| - 1], Stream(front), 2000)
  }

  /** Every window of the table is at most four changes long, every price
      is a digit, and every entry belongs to a buyer of the input. */
  lemma {:induction false} EntryWindows(input: seq<nat>)
    requires AllFit(input)
    ensures forall i :: 0 <= i < |Entries(input)| ==> (|Entries(input)[i].window| <= 4 &&
      Entries(input)[i].price < 10 && Entries(input)[i].number in input)
  {
    if input != [] {
      var front := input[..|input| - 1];
      EntryWindows(front);
      var entries, head := Entries(input), Entries(front);
      var last := BuyerEntries(input[|input| - 1], Stream(front), 2000);
      assert entries == head + last;
      forall i | 0 <= i < |entries|
        ensures |entries[i].window| <= 4 && entries[i].price < 10 && entries[i].number in input
      {
        if i < |head| {
          assert entries[i] == head[i];
          assert head[i].number in front;
        } else {
          assert entries[i] == last[i - |head|];
        }
      }
    }
  }

  /** `entry(window).or_insert(..).entry(number).and_modify(max).or_insert(price)`. */
  function Record(t: Table, e: Entry): (r: Table)
    ensures r.Keys == t.Keys + {e.window}
    ensures forall w, n :: (w in r && n in r[w]) <==> (w in t && n in t[w]) || Under(e, w, n)
    ensures forall w, n :: w in t && n in t[w] && !Under(e, w, n) ==> r[w][n] == t[w][n]
    ensures e.window in r && e.number in r[e.window] && r[e.window][e.number] ==
      if e.window in t && e.number in t[e.window] then Max(t[e.window][e.number], e.price) else e.price
  {
    var inner := if e.window in t then t[e.window] else map[];
    var price := if e.number in inner then Max(inner[e.number], e.price) else e.price;
    t[e.window := inner[e.number := price]]
  }

  /** The table after recording `entries` in order, starting from `t`. */
  function Fold(t: Table, entries: seq<Entry>): Table
  {
    if entries == [] then t else Record(Fold(t, entries[..|entries| - 1]), entries[|entries| - 1])
  }

  lemma {:induction false} FoldAppend(t: Table, a: seq<Entry>, b: seq<Entry>)
    ensures Fold(t, a + b) == Fold(Fold(t, a), b)
    decreases |b|
  {
    if b == [] {
      assert a + b == a;
    } else {
      assert (a + b)[..|a + b| - 1] == a + b[..|b| - 1];
      assert (a + b)[|a + b| - 1] == b[|b| - 1];
      FoldAppend(t, a, b[..|b| - 1]);
    }
  }

  lemma FoldPush(t: Table, a: seq<Entry>, e: Entry)
    ensures Fold(t, a + [e]) == Record(Fold(t, a), e)
  {
    assert (a + [e])[..|a|] == a;
  }

  /** Whether entry `e` is recorded under window `w` for buyer `n`. */
  predicate Under(e: Entry, w: seq<int>, n: nat)
  {
    e.window == w && e.number == n
  }

  /** Whether the table has a cell for window `w` and buyer `n`. */
  predicate HasCell(t: Table, w: seq<int>, n: nat)
  {
    w in t && n in t[w]
  }

  /** Whether some entry was recorded under window `w` for buyer `n`. */
  predicate Recorded(entries: seq<Entry>, w: seq<int>, n: nat)
  {
    exists i :: 0 <= i < |entries| && Under(entries[i], w, n)
  }

  /** A cell of the table exists exactly when some entry was recorded under
      its window and buyer. */
  lemma {:induction false} FoldCells(entries: seq<Entry>)
    ensures forall w, n :: HasCell(Fold(map[], entries), w, n) <==> Recorded(entries, w, n)
  {
    if entries != [] {
      var front, e := entries[..|entries| - 1], entries[|entries| - 1];
      FoldCells(front);
      var t := Fold(map[], front);
      assert Fold(map[], entries) == Record(t, e);
      forall w, n
        ensures HasCell(Record(t, e), w, n) <==> Recorded(entries, w, n)
      {
        assert HasCell(t, w, n) <==> Recorded(front, w, n);
        if Recorded(entries, w, n) {
          var i :| 0 <= i < |entries| && Under(entries[i], w, n);
          if i < |front| {
            assert Under(front[i], w, n);
            assert Recorded(front, w, n);
          } else {
            assert Under(e, w, n);
          }
        }
        if Recorded(front, w, n) {
          var i :| 0 <= i < |front| && Under(front[i], w, n);
          assert Under(entries[i], w, n);
        }
        if Under(e, w, n) {
          assert Under(entries[|entries| - 1], w, n);
        }
      }
    }
  }

  /** Every cell holds at least the price of every entry recorded under it. */
  lemma {:induction false} FoldAtLeast(entries: seq<Entry>)
    ensures forall i :: 0 <= i < |entries| ==>
      var e := entries[i];
      e.window in Fold(map[], entries) && e.number in Fold(map[], entries)[e.window] &&
      e.price <= Fold(map[], entries)[e.window][e.number]
  {
    if entries != [] {
      var front, e := entries[..|entries| - 1], entries[|entries| - 1];
      FoldAtLeast(front);
      var t := Fold(map[], front);
      var t' := Record(t, e);
      forall i | 0 <= i < |entries|
        ensures entries[i].window in t' && entries[i].number in t'[entries[i].window] &&
          entries[i].price <= t'[entries[i].window][entries[i].number]
      {
        if i < |front| {
          assert entries[i] == front[i];
        }
      }
    }
  }

  /** Every cell holds the price of one of the entries recorded under it. */
  lemma {:induction false} FoldAttained(entries: seq<Entry>)
    ensures forall w, n :: w in Fold(map[], entries) && n in Fold(map[], entries)[w] ==>
      exists i :: 0 <= i < |entries| && Under(entries[i], w, n) && entries[i].price == Fold(map[], entries)[w][n]
  {
    if entries != [] {
      var front, e := entries[..|entries| - 1], entries[|entries| - 1];
      FoldAttained(front);
      var t := Fold(map[], front);
      var t' := Record(t, e);
      forall w, n | w in t' && n in t'[w]
        ensures exists i :: 0 <= i < |entries| && Under(entries[i], w, n) && entries[i].price == t'[w][n]
      {
        if Under(e, w, n) && (w !in t || n !in t[w] || t'[w][n] == e.price) {
          assert Under(entries[|entries| - 1], w, n);
        } else {
          assert w in t && n in t[w] && t'[w][n] == t[w][n];
          var i :| 0 <= i < |front| && Under(front[i], w, n) && front[i].price == t[w][n];
          assert entries[i] == front[i];
        }
      }
    }
  }

  /** The sum of the values of a map, in any order. */
  ghost function ValueSum(m: map<nat, nat>): nat
    decreases |m|
  {
    if m == map[] then 0
    else
      var k :| k in m;
      m[k] + ValueSum(m - {k})
  }

  /** Any key can be taken out first. */
  lemma {:induction false} ValueSumRemove(m: map<nat, nat>, k: nat)
    requires k in m
    ensures ValueSum(m) == m[k] + ValueSum(m - {k})
    decreases |m|
  {
    var k' :| k' in m && ValueSum(m) == m[k'] + ValueSum(m - {k'});
    if k' != k {
      ValueSumRemove(m - {k'}, k);
      ValueSumRemove(m - {k}, k');
      assert m - {k'} - {k} == m - {k} - {k'};
    }
  }

  /** `values().sum()` over one window's buyers. */
  method SumValues(m: map<nat, nat>) returns (s: nat)
    ensures s == ValueSum(m)
  {
    s := 0;
    var rest := m;
    while rest != map[]
      invariant s + ValueSum(rest) == ValueSum(m)
      decreases |rest|
    {
      var k :| k in rest;
      ValueSumRemove(rest, k);
      s := s + rest[k];
      rest := rest - {k};
    }
  }

  /** `best.values().map(sum).max().unwrap()`: the largest window total, or
      the unwrap panic when the table is empty. */
  method BestTotal(t: Table) returns (r: Result<nat>)
    ensures r.Err? <==> t == map[]
    ensures r.Ok? ==> ((exists w :: w in t && r.value == ValueSum(t[w])) &&
      forall w :: w in t ==> ValueSum(t[w]) <= r.value)
  {
    var best: Option<nat> := None;
    var keys := t.Keys;
    while keys != {}
      invariant keys <= t.Keys
      invariant best.None? <==> keys == t.Keys
      invariant best.Some? ==> ((exists w :: w in t && w !in keys && best.value == ValueSum(t[w])) &&
        forall w :: w in t && w !in keys ==> ValueSum(t[w]) <= best.value)
      decreases keys
    {
      var w :| w in keys;
      var total := SumValues(t[w]);
      if best.None? || best.value < total {
        best := Some(total);
      }
      keys := keys - {w};
    }
    if best.None? {
      assert t.Keys == {};
      return Err("called `Option::unwrap()` on a `None` value");
    }
    return Ok(best.value);
  }

  /** The window loop: push the change, then drop from the front while there
      are more than four. */
  method PushChange(window: seq<int>, delta: int) returns (r: seq<int>)
    ensures r == Last4(window + [delta])
  {
    var pushed := window + [delta];
    r := pushed;
    while |r| > 4
      invariant |r| <= |pushed| && r == pushed[|pushed| - |r|..]
      invariant |r| < |pushed| ==> |r| >= 4
    {
      r := r[1..];
    }
  }

  /** The inner loop for one buyer: 2000 steps, each recording the price
      before the step under the current window, then pushing the change. */
  method RecordBuyer(number: nat, ghost before: seq<int>, window: seq<int>, best: Table)
    returns (window': seq<int>, best': Table)
    requires Fits(number) && window == Last4(before)
    ensures window' == Last4(before + Deltas(number, 2000))
    ensures best' == Fold(best, BuyerEntries(number, before, 2000))
  {
    var current := number;
    window', best' := window, best;
    for j := 0 to 2000
      invariant current == Evolve(number, j)
      invariant window' == Last4(before + Deltas(number, j))
      invariant best' == Fold(best, BuyerEntries(number, before, j))
    {
      var next := Next(current);
      var currentOnes := current % 10;
      var delta := (next % 10) as int - currentOnes as int;
      WindowStep(number, before, j, window', delta);
      BuyerStep(number, before, j, best);
      current := next;
      best' := Record(best', Entry(window', number, currentOnes));
      window' := PushChange(window', delta);
    }
  }

  /** One more step of a buyer pushes its change onto the window. */
  lemma WindowStep(x: nat, before: seq<int>, j: nat, window: seq<int>, delta: int)
    requires Fits(x) && window == Last4(before + Deltas(x, j))
    requires delta == (Next(Evolve(x, j)) % 10) as int - (Evolve(x, j) % 10) as int
    ensures Next(Evolve(x, j)) == Evolve(x, j + 1)
    ensures Last4(window + [delta]) == Last4(before + Deltas(x, j + 1))
  {
    assert delta == Delta(Evolve(x, j), Evolve(x, j + 1));
    DeltasStep(x, before, j);
    Last4Push(before + Deltas(x, j), delta);
  }

  /** One more step of a buyer records one more entry. */
  lemma BuyerStep(x: nat, before: seq<int>, j: nat, t: Table)
    requires Fits(x)
    ensures Fold(t, BuyerEntries(x, before, j + 1)) ==
      Record(Fold(t, BuyerEntries(x, before, j)), Entry(Last4(before + Deltas(x, j)), x, Evolve(x, j) % 10))
  {
    FoldPush(t, BuyerEntries(x, before, j), Entry(Last4(before + Deltas(x, j)), x, Evolve(x, j) % 10));
  }

  /** The outer loop of `do_it`: every buyer in order with one table and one
      window, or the overflow panic of the first number too large. */
  method BuildTable(input: seq<nat>) returns (r: Result<Table>)
    ensures r.Ok? <==> AllFit(input)
    ensures r.Ok? ==> r.value == Fold(map[], Entries(input))
  {
    var window: seq<int> := [];
    var best: Table := map[];
    for k := 0 to |input|
      invariant forall i :: 0 <= i < k ==> Fits(input[i])
      invariant window == Last4(Stream(input[..k]))
      invariant best == Fold(map[], Entries(input[..k]))
    {
      var number := input[k];
      if !Fits(number) {
        return Err("attempt to multiply with overflow");
      }
      EntriesStep(input, k);
      FoldAppend(map[], Entries(input[..k]), BuyerEntries(number, Stream(input[..k]), 2000));
      window, best := RecordBuyer(number, Stream(input[..k]), window, best);
    }
    assert input[..|input|] == input;
    return Ok(best);
  }

  lemma EntriesStep(input: seq<nat>, k: nat)
    requires k < |input| && forall i :: 0 <= i <= k ==> Fits(input[i])
    ensures AllFit(input[..k]) && AllFit(input[..k + 1])
    ensures Stream(input[..k + 1]) == Stream(input[..k]) + Deltas(input[k], 2000)
    ensures Entries(input[..k + 1]) == Entries(input[..k]) + BuyerEntries(input[k], Stream(input[..k]), 2000)
  {
    assert input[..k + 1][..k] == input[..k];
    assert input[..k + 1][k] == input[k];
  }

  /** `do_it`: parse the numbers, build the table, and take the best total. */
  method Solve(lines: seq<string>) returns (r: Result<nat>)
    ensures r.Ok? <==> (ParseNumbers(lines).Ok? && AllFit(ParseNumbers(lines).value) &&
      ParseNumbers(lines).value != [])
    ensures r.Ok? ==> var t := Fold(map[], Entries(ParseNumbers(lines).value));
      (exists w :: w in t && r.value == ValueSum(t[w])) &&
        forall w :: w in t ==> ValueSum(t[w]) <= r.value
  {
    var parsed := ParseNumbers(lines);
    if parsed.Err? {
      return Err(parsed.msg);
    }
    var table := BuildTable(parsed.value);
    if table.Err? {
      return Err(table.msg);
    }
    if parsed.value != [] {
      EntriesNonEmpty(parsed.value);
    }
    r := BestTotal(table.value);
  }

  /** Some buyer means some entry, and so a non-empty table. */
  lemma EntriesNonEmpty(input: seq<nat>)
    requires AllFit(input) && input != []
    ensures Fold(map[], Entries(input)) != map[]
  {
    var entries := Entries(input);
    FoldAtLeast(entries);
    assert entries[0].window in Fold(map[], entries);
  }
}
