/** The pebbles again, for 75 blinks: stones with the same number behave
    alike, so the list is kept as a map from number to how many stones carry
    it, and each blink moves whole counts at once. */
module Day11b {
  import opened Common
  import opened Text
  import opened Day11a

  type Counts = map<nat, nat>

  /** How many stones carry `k`: 0 for a number that is not a key. */
  function Count(c: Counts, k: nat): nat
  {
    if k in c then c[k] else 0
  }

  /** `increment`: `times` more stones carry `number`; a new key starts at `times`. */
  function Increment(c: Counts, number: nat, times: nat): (r: Counts)
    ensures r.Keys == c.Keys + {number}
    ensures Count(r, number) == Count(c, number) + times
    ensures forall k :: k != number ==> Count(r, k) == Count(c, k)
  {
    if number in c then c[number := c[number] + times] else c[number := times]
  }

  /** The counts stand for the stones `m`: every key has a positive count, and
      every number is counted as often as it occurs in `m`. */
  ghost predicate Represents(c: Counts, m: multiset<nat>)
  {
    (forall k :: k in c ==> c[k] > 0) && forall k :: Count(c, k) == m[k]
  }

  /** `t` copies of `x`. */
  function Repeat(x: nat, t: nat): (r: seq<nat>)
    ensures |r| == t
  {
    if t == 0 then [] else Repeat(x, t - 1) + [x]
  }

  lemma {:induction false} RepeatCounts(x: nat, t: nat)
    ensures forall k :: multiset(Repeat(x, t))[k] == if k == x then t else 0
  {
    if t > 0 {
      RepeatCounts(x, t - 1);
      assert Repeat(x, t) == Repeat(x, t - 1) + [x];
    }
  }

  /** The stones the counts stand for, taking the numbers in `order`. */
  ghost function Unfold(c: Counts, order: seq<nat>): seq<nat>
  {
    if order == [] then [] else Unfold(c, order[..|order| - 1]) + Repeat(order[|order| - 1], Count(c, order[|order| - 1]))
  }

  /** Unfolding along an order without repeats counts each listed number as
      the map does, and every other number not at all. */
  lemma {:induction false} UnfoldCounts(c: Counts, order: seq<nat>)
    requires forall i, j :: 0 <= i < j < |order| ==> order[i] != order[j]
    ensures forall k :: multiset(Unfold(c, order))[k] == if k in order then Count(c, k) else 0
  {
    if order != [] {
      var front, last := order[..|order| - 1], order[|order| - 1];
      UnfoldCounts(c, front);
      RepeatCounts(last, Count(c, last));
      assert last !in front;
      forall k ensures multiset(Unfold(c, order))[k] == if k in order then Count(c, k) else 0 {
        assert k in order <==> k in front || k == last;
      }
    }
  }

  /** Adding `t` stones numbered `x` to the stones the counts stand for. */
  lemma IncrementRepresents(c: Counts, m: multiset<nat>, x: nat, t: nat)
    requires Represents(c, m) && t > 0
    ensures Represents(Increment(c, x, t), m + multiset(Repeat(x, t)))
  {
    RepeatCounts(x, t);
  }

  /** `t` copies of each number of `r`. */
  ghost function Copies(r: seq<nat>, t: nat): multiset<nat>
  {
    if t == 0 then multiset{} else Copies(r, t - 1) + multiset(r)
  }

  lemma {:induction false} CopiesOne(a: nat, t: nat)
    ensures Copies([a], t) == multiset(Repeat(a, t))
  {
    if t > 0 {
      CopiesOne(a, t - 1);
    }
  }

  lemma {:induction false} CopiesTwo(a: nat, b: nat, t: nat)
    ensures Copies([a, b], t) == multiset(Repeat(a, t)) + multiset(Repeat(b, t))
  {
    assert [a, b] == [a] + [b];
    CopiesAppend([a], [b], t);
    CopiesOne(a, t);
    CopiesOne(b, t);
  }

  /** Copies of a concatenation are the copies of each part. */
  lemma {:induction false} CopiesAppend(r1: seq<nat>, r2: seq<nat>, t: nat)
    ensures Copies(r1 + r2, t) == Copies(r1, t) + Copies(r2, t)
  {
    if t > 0 {
      CopiesAppend(r1, r2, t - 1);
      assert multiset(r1 + r2) == multiset(r1) + multiset(r2);
      UnionShuffle(Copies(r1, t - 1), Copies(r2, t - 1), multiset(r1), multiset(r2));
    }
  }

  lemma UnionShuffle(p: multiset<nat>, q: multiset<nat>, r: multiset<nat>, s: multiset<nat>)
    ensures (p + q) + (r + s) == (p + r) + (q + s)
  {
  }

  /** One blink of `t` stones numbered `x`: `t` copies of what the rule makes of one. */
  lemma {:induction false} BlinkRepeat(x: nat, t: nat)
    ensures multiset(BlinkAll(Repeat(x, t))) == Copies(Blink(x), t)
  {
    if t > 0 {
      BlinkRepeat(x, t - 1);
      BlinkAllAppend(Repeat(x, t - 1), [x]);
      assert BlinkAll([x]) == Blink(x) by {
        assert [x][..0] == [];
      }
    }
  }

  /** The stones the counts `c`, listed in `order`, stand for, when `order`
      lists every key once. */
  lemma UnfoldAll(c: Counts, order: seq<nat>, m: multiset<nat>)
    requires Represents(c, m)
    requires forall i, j :: 0 <= i < j < |order| ==> order[i] != order[j]
    requires forall k :: k in c ==> k in order
    ensures multiset(Unfold(c, order)) == m
  {
    UnfoldCounts(c, order);
    forall k ensures multiset(Unfold(c, order))[k] == m[k] {
      if k in c {
        assert k in order;
      }
    }
  }

  /** What a blink makes of the stones depends only on which stones there
      are, not on their order. */
  lemma {:induction false} BlinkAllPermutation(a: seq<nat>, b: seq<nat>)
    requires multiset(a) == multiset(b)
    ensures multiset(BlinkAll(a)) == multiset(BlinkAll(b))
    decreases |a|
  {
    if a != [] {
      var x := a[|a| - 1];
      var a' := a[..|a| - 1];
      assert a == a' + [x];
      var b1, b2 := TakeOut(a', x, b);
      BlinkAllPermutation(a', b1 + b2);
      BlinkAllAppend(a', [x]);
      BlinkAllAppend(b1, b2);
      BlinkAllAppend(b1 + [x], b2);
      BlinkAllAppend(b1, [x]);
      assert BlinkAll([x]) == Blink(x) by {
        assert [x][..0] == [];
      }
    }
  }

  /** A stone of `a' + [x]` is somewhere in a permutation `b` of it; taking it
      out leaves a permutation of `a'`. */
  lemma TakeOut(a': seq<nat>, x: nat, b: seq<nat>) returns (b1: seq<nat>, b2: seq<nat>)
    requires multiset(a' + [x]) == multiset(b)
    ensures b == b1 + [x] + b2 && multiset(a') == multiset(b1 + b2)
  {
    assert x in multiset(b);
    var i :| 0 <= i < |b| && b[i] == x;
    b1, b2 := b[..i], b[i + 1..];
    assert b == b1 + [x] + b2;
    var others, left, right, one := multiset(a'), multiset(b1), multiset(b2), multiset{x};
    assert others + one == left + one + right by {
      assert multiset(a' + [x]) == others + one;
      assert multiset(b) == left + one + right;
    }
    assert left + one + right == (left + right) + one;
    assert others == (others + one) - one;
    assert left + right == ((left + right) + one) - one;
    assert multiset(b1 + b2) == left + right;
  }

  /** The count map, the buffer the next one is built in, and (as a ghost) a
      row of part one that the counts stand for. */
  class List {
    var numbers: Counts
    var next: Counts
    ghost var stones: seq<nat>

    ghost predicate Valid()
      reads this
    {
      Represents(numbers, multiset(stones))
    }

    constructor (numbers: Counts, ghost stones: seq<nat>)
      requires Represents(numbers, multiset(stones))
      ensures Valid() && this.numbers == numbers && this.stones == stones && next == map[]
    {
      this.numbers := numbers;
      this.next := map[];
      this.stones := stones;
    }

    /** `List::new`: every parsed stone counted once. */
    static method New(line: string) returns (r: Result<List>)
      ensures r.Ok? <==> ParseStones(line).Ok?
      ensures r.Ok? ==> (fresh(r.value) && r.value.Valid() &&
        r.value.stones == ParseStones(line).value && r.value.next == map[])
    {
      var parsed := ParseStones(line);
      if parsed.Err? {
        return Err(parsed.msg);
      }
      var stones := parsed.value;
      var numbers := CountAll(stones);
      var list := new List(numbers, stones);
      return Ok(list);
    }

    /** The loop in `List::new`: each stone adds one to its number's count. */
    static method CountAll(stones: seq<nat>) returns (numbers: Counts)
      ensures Represents(numbers, multiset(stones))
    {
      numbers := map[];
      for i := 0 to |stones|
        invariant Represents(numbers, multiset(stones[..i]))
      {
        assert stones[..i + 1] == stones[..i] + Repeat(stones[i], 1);
        IncrementRepresents(numbers, multiset(stones[..i]), stones[i], 1);
        numbers := Increment(numbers, stones[i], 1);
      }
      assert stones[..|stones|] == stones;
    }

    /** `advance`: each number's count goes to the numbers its stones turn
        into, in whatever order the map yields its keys; the counts then
        stand for part one's next row. */
    method Advance()
      requires Valid()
      modifies this
      ensures Valid() && stones == BlinkAll(old(stones)) && next == old(numbers)
    {
      next := map[];
      next := SpreadAll(numbers, next, stones);
      numbers, next := next, numbers;
      stones := BlinkAll(stones);
    }

    /** The loop in `advance`, adding into the cleared buffer `start`: it
        ends up standing for part one's next row. */
    static method SpreadAll(current: Counts, start: Counts, ghost stones: seq<nat>) returns (next: Counts)
      requires Represents(current, multiset(stones)) && start == map[]
      ensures Represents(next, multiset(BlinkAll(stones)))
    {
      next := start;
      var keys := current.Keys;
      ghost var done: seq<nat> := [];
      while keys != {}
        invariant keys <= current.Keys
        invariant forall k :: k in current ==> (k in keys <==> k !in done)
        invariant forall i :: 0 <= i < |done| ==> done[i] in current
        invariant forall i, j :: 0 <= i < j < |done| ==> done[i] != done[j]
        invariant Represents(next, multiset(BlinkAll(Unfold(current, done))))
        decreases keys
      {
        var number :| number in keys;
        var count := current[number];
        assert count == Count(current, number) > 0;
        next := Spread(next, number, count, multiset(BlinkAll(Unfold(current, done))));
        UnfoldStep(current, done, number);
        done := done + [number];
        keys := keys - {number};
      }
      UnfoldAll(current, done, multiset(stones));
      BlinkAllPermutation(Unfold(current, done), stones);
    }

    /** Unfolding one more number adds what blinking its stones makes. */
    static lemma UnfoldStep(current: Counts, done: seq<nat>, number: nat)
      ensures multiset(BlinkAll(Unfold(current, done + [number]))) ==
        multiset(BlinkAll(Unfold(current, done))) + Copies(Blink(number), Count(current, number))
    {
      var before := Unfold(current, done);
      var count := Count(current, number);
      assert (done + [number])[..|done|] == done;
      assert Unfold(current, done + [number]) == before + Repeat(number, count);
      BlinkAllAppend(before, Repeat(number, count));
      BlinkRepeat(number, count);
    }

    /** The body of the loop in `advance`: the `count` stones numbered
        `number` go to what the rule makes of them. */
    static method Spread(counts: Counts, number: nat, count: nat, ghost m: multiset<nat>) returns (r: Counts)
      requires Represents(counts, m) && count > 0
      ensures Represents(r, m + Copies(Blink(number), count))
    {
      if number == 0 {
        CopiesOne(1, count);
        IncrementRepresents(counts, m, 1, count);
        r := Increment(counts, 1, count);
      } else {
        var s := Decimal(number);
        if |s| % 2 == 0 {
          var left, right := DigitsValue(s[..|s| / 2]), DigitsValue(s[|s| / 2..]);
          assert Blink(number) == [left, right];
          CopiesTwo(left, right, count);
          IncrementRepresents(counts, m, left, count);
          r := Increment(counts, left, count);
          IncrementRepresents(r, m + multiset(Repeat(left, count)), right, count);
          r := Increment(r, right, count);
        } else {
          CopiesOne(number * 2024, count);
          IncrementRepresents(counts, m, number * 2024, count);
          r := Increment(counts, number * 2024, count);
        }
      }
    }

    /** `len`: the counts added up, which is the length of part one's row. */
    method Len() returns (n: nat)
      requires Valid()
      ensures n == |stones|
    {
      n := 0;
      var keys := numbers.Keys;
      ghost var done: seq<nat> := [];
      while keys != {}
        invariant keys <= numbers.Keys
        invariant forall k :: k in numbers ==> (k in keys <==> k !in done)
        invariant forall i :: 0 <= i < |done| ==> done[i] in numbers
        invariant forall i, j :: 0 <= i < j < |done| ==> done[i] != done[j]
        invariant n == |Unfold(numbers, done)|
        decreases keys
      {
        var number :| number in keys;
        assert (done + [number])[..|done|] == done;
        n := n + numbers[number];
        done := done + [number];
        keys := keys - {number};
      }
      UnfoldAll(numbers, done, multiset(stones));
      assert |multiset(Unfold(numbers, done))| == |Unfold(numbers, done)|;
    }
  }

  /** `do_it`: exactly one line, its stones counted, and the number of stones
      after 75 blinks, which is the length part one's row would reach. */
  method Solve(lines: seq<string>) returns (r: Result<nat>)
    ensures r.Ok? <==> |lines| == 1 && ParseStones(Trim(lines[0])).Ok?
    ensures r.Ok? ==> r.value == |Blinks(ParseStones(Trim(lines[0])).value, 75)|
  {
    var contents := TrimLines(lines);
    if |contents| != 1 {
      return Err("expected a single line of input");
    }
    var parsed := List.New(contents[0]);
    if parsed.Err? {
      return Err(parsed.msg);
    }
    var list := parsed.value;
    ghost var start := list.stones;
    for n := 0 to 75
      invariant list.Valid() && list.stones == Blinks(start, n)
    {
      list.Advance();
    }
    var n := list.Len();
    return Ok(n);
  }
}
