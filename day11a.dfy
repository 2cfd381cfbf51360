/** Plutonian pebbles: on every blink each stone changes by the first rule
    that applies (0 becomes 1; a number with an even count of digits splits
    into its two halves; anything else is multiplied by 2024), and the stones
    keep their order. */
module Day11a {
  import opened Common
  import opened Text

  /** The two halves of the decimal digits of `x`, each read back as a number
      (leading zeros of the right half disappear). */
  function Halves(x: nat): (nat, nat)
    requires NumDigits(x) % 2 == 0
  {
    var s := Decimal(x);
    (DigitsValue(s[..|s| / 2]), DigitsValue(s[|s| / 2..]))
  }

  /** Splitting loses nothing: the left half followed by the right half padded
      to `h` digits is `x` again, and the left half has exactly `h` digits. */
  lemma HalvesJoin(x: nat)
    requires NumDigits(x) % 2 == 0
    ensures var h := NumDigits(x) / 2;
      h >= 1 && Halves(x).0 * Pow(10, h) + Halves(x).1 == x &&
      Halves(x).1 < Pow(10, h) && Pow(10, h - 1) <= Halves(x).0 < Pow(10, h)
  {
    var s := Decimal(x);
    var h := |s| / 2;
    var (left, right) := Halves(x);
    DecimalValue(x);
    DigitsValueSplit(s, h);
    assert |s| - h == h;
    DigitsValueBound(s[h..]);
    DigitsValueBound(s[..h]);
    NumDigitsBounds(x);
    PowAdd(10, h, h - 1);
    LeftHalfWide(x, left, right, Pow(10, h), Pow(10, h - 1));
  }

  /** If `x = left * p + right` with `right < p` and `x >= p * q`, then `left >= q`. */
  lemma LeftHalfWide(x: nat, left: nat, right: nat, p: nat, q: nat)
    requires x == left * p + right && right < p && p * q <= x
    ensures q <= left
  {
    assert x < (left + 1) * p;
  }

  /** The rule for one stone, as the loop body of `advance` applies it. */
  function Blink(x: nat): (r: seq<nat>)
    ensures 1 <= |r| <= 2
  {
    if x == 0 then [1]
    else if NumDigits(x) % 2 == 0 then [Halves(x).0, Halves(x).1]
    else [x * 2024]
  }

  /** Every stone of a row blinked, results in the order of their stones. */
  function BlinkAll(s: seq<nat>): seq<nat>
  {
    if s == [] then [] else BlinkAll(s[..|s| - 1]) + Blink(s[|s| - 1])
  }

  /** Blinking a row is blinking its parts: each stone's results stay where
      the stone was. */
  lemma {:induction false} BlinkAllAppend(a: seq<nat>, b: seq<nat>)
    ensures BlinkAll(a + b) == BlinkAll(a) + BlinkAll(b)
    decreases |b|
  {
    if b == [] {
      assert a + b == a;
    } else {
      var c, x := b[..|b| - 1], b[|b| - 1];
      assert (a + b)[..|a + b| - 1] == a + c && (a + b)[|a + b| - 1] == x;
      assert BlinkAll(a + b) == BlinkAll(a + c) + Blink(x);
      assert BlinkAll(b) == BlinkAll(c) + Blink(x);
      BlinkAllAppend(a, c);
      assert (BlinkAll(a) + BlinkAll(c)) + Blink(x) == BlinkAll(a) + (BlinkAll(c) + Blink(x));
    }
  }

  /** Each stone becomes one or two, so a row never shrinks and at most doubles. */
  lemma {:induction false} BlinkAllLength(s: seq<nat>)
    ensures |s| <= |BlinkAll(s)| <= 2 * |s|
  {
    if s != [] {
      BlinkAllLength(s[..|s| - 1]);
    }
  }

  /** The row after `n` blinks. */
  function Blinks(s: seq<nat>, n: nat): seq<nat>
  {
    if n == 0 then s else BlinkAll(Blinks(s, n - 1))
  }

  /** After `n` blinks there are at least as many stones as at the start and
      at most `2^n` times as many. */
  lemma {:induction false} BlinksLength(s: seq<nat>, n: nat)
    ensures |s| <= |Blinks(s, n)| <= Pow(2, n) * |s|
  {
    if n > 0 {
      var before := Blinks(s, n - 1);
      BlinksLength(s, n - 1);
      assert |before| <= |Blinks(s, n)| <= 2 * |before| by {
        BlinkAllLength(before);
      }
      PowDouble(n);
      DoubleBound(|Blinks(s, n)|, |before|, Pow(2, n - 1), |s|, Pow(2, n));
    }
  }

  lemma PowDouble(e: nat)
    requires e > 0
    ensures Pow(2, e) == 2 * Pow(2, e - 1)
  {
  }

  lemma DoubleBound(next: nat, len: nat, a: nat, b: nat, p: nat)
    requires len <= a * b && next <= 2 * len && p == 2 * a
    ensures next <= p * b
  {
  }

  /** The stones of a line: the pieces between single spaces, each a `u64`. */
  function ParseStones(line: string): Result<seq<nat>>
  {
    ParseUnsignedAll(SplitOn(line, ' '), U64_LIMIT)
  }

  /** The numbers in decimal. */
  function Render(s: seq<nat>): (r: seq<string>)
    ensures |r| == |s| && forall i :: 0 <= i < |s| ==> r[i] == Decimal(s[i])
  {
    seq(|s|, i requires 0 <= i < |s| => Decimal(s[i]))
  }

  /** A row of `u64` stones written with single spaces reads back as the same row. */
  lemma ParseStonesRender(s: seq<nat>)
    requires |s| >= 1 && forall i :: 0 <= i < |s| ==> s[i] < U64_LIMIT
    ensures ParseStones(Join(Render(s), ' ')) == Ok(s)
  {
    var pieces := Render(s);
    SplitOnJoin(pieces, ' ');
    forall i | 0 <= i < |s|
      ensures ParseUnsigned(pieces[i], U64_LIMIT) == Ok(s[i])
    {
      ParseDecimal(s[i], U64_LIMIT);
    }
    var r := ParseUnsignedAll(pieces, U64_LIMIT);
    assert r.Ok?;
    assert r.value == s;
  }

  /** The stones, and the buffer the next row is built in. */
  class List {
    var numbers: seq<nat>
    var next: seq<nat>

    constructor (numbers: seq<nat>)
      ensures this.numbers == numbers && next == []
    {
      this.numbers := numbers;
      this.next := [];
    }

    /** `List::new`: the stones of the line, or the first parse error. */
    static method New(line: string) returns (r: Result<List>)
      ensures r.Ok? <==> ParseStones(line).Ok?
      ensures r.Ok? ==> fresh(r.value) && r.value.numbers == ParseStones(line).value && r.value.next == []
    {
      var parsed := ParseStones(line);
      if parsed.Err? {
        return Err(parsed.msg);
      }
      var list := new List(parsed.value);
      return Ok(list);
    }

    /** `advance`: the next row is built from the stones in order, then the
        two buffers trade places. */
    method Advance()
      modifies this
      ensures numbers == BlinkAll(old(numbers)) && next == old(numbers)
    {
      next := [];
      var current := numbers;
      for i := 0 to |current|
        invariant next == BlinkAll(current[..i])
      {
        var x := current[i];
        assert current[..i + 1][..i] == current[..i];
        if x == 0 {
          next := next + [1];
        } else {
          var s := Decimal(x);
          if |s| % 2 == 0 {
            next := next + [DigitsValue(s[..|s| / 2])];
            next := next + [DigitsValue(s[|s| / 2..])];
          } else {
            next := next + [x * 2024];
          }
        }
      }
      assert current[..|current|] == current;
      numbers, next := next, current;
    }

    /** `len`: how many stones there are. */
    function Len(): nat
      reads this
    {
      |numbers|
    }
  }

  /** `do_it`: exactly one line, its stones, and the count after 25 blinks. */
  method Solve(lines: seq<string>) returns (r: Result<nat>)
    ensures r.Ok? <==> |lines| == 1 && ParseStones(Trim(lines[0])).Ok?
    ensures r.Ok? ==> r.value == |Blinks(ParseStones(Trim(lines[0])).value, 25)|
  {
    var contents := TrimLines(lines);
    if |contents| != 1 {
      return Err("expected a single line of input");
    }
    var parsed := List.New(contents[0]);
    if parsed.Err? {
      return Err(parsed.msg);
    }
    var list := parsed.value;
    ghost var start := list.numbers;
    for n := 0 to 25
      invariant list.numbers == Blinks(start, n)
    {
      list.Advance();
    }
    return Ok(list.Len());
  }
}
