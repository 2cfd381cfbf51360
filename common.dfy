/** Small shared vocabulary: the error-or-value result every solver returns,
    an optional value, and sums over sequences. */
module Common {

  /** The solvers' `Result<T>`: a value, or an error carrying a message. */
  datatype Result<+T> = Ok(value: T) | Err(msg: string) {
    predicate IsFailure() { Err? }

    function PropagateFailure<U>(): Result<U>
      requires Err?
    {
      Err(msg)
    }

    function Extract(): T
      requires Ok?
    {
      value
    }
  }

  datatype Option<+T> = None | Some(value: T)

  /** `collect::<Result<Vec<_>>>` over a mapped sequence: every result in
      order, or the first error. */
  function Collect<A, B>(s: seq<A>, f: A -> Result<B>): (r: Result<seq<B>>)
    ensures r.Ok? ==> |r.value| == |s|
  {
    if s == [] then Ok([])
    else
      var first :- f(s[0]);
      var rest :- Collect(s[1..], f);
      Ok([first] + rest)
  }

  /** The collection succeeds exactly when every element does, and then
      holds each element's own result; otherwise it fails with the first
      element's error. */
  lemma {:induction false} CollectEach<A, B>(s: seq<A>, f: A -> Result<B>)
    ensures Collect(s, f).Ok? <==> forall k :: 0 <= k < |s| ==> f(s[k]).Ok?
    ensures Collect(s, f).Ok? ==> forall k :: 0 <= k < |s| ==> f(s[k]) == Ok(Collect(s, f).value[k])
    ensures Collect(s, f).Err? ==>
      exists k :: (0 <= k < |s| && f(s[k]).Err? && Collect(s, f).msg == f(s[k]).msg &&
                   forall j :: 0 <= j < k ==> f(s[j]).Ok?)
  {
    if s != [] {
      CollectEach(s[1..], f);
      assert forall k :: 1 <= k < |s| ==> s[k] == s[1..][k - 1];
      if f(s[0]).Ok? && Collect(s[1..], f).Err? {
        var k :| 0 <= k < |s[1..]| && f(s[1..][k]).Err? && Collect(s[1..], f).msg == f(s[1..][k]).msg &&
          forall j :: 0 <= j < k ==> f(s[1..][j]).Ok?;
        assert forall j :: 1 <= j < k + 1 ==> f(s[j]).Ok?;
      }
    }
  }

  /** The number of positions whose element satisfies `P`. */
  function CountWhere<T>(s: seq<T>, P: T -> bool): nat
  {
    |set i | 0 <= i < |s| && P(s[i])|
  }

  /** Counting one position more adds one exactly when its element satisfies `P`. */
  lemma CountStep<T>(s: seq<T>, n: nat, P: T -> bool)
    requires n < |s|
    ensures CountWhere(s[..n + 1], P) == CountWhere(s[..n], P) + (if P(s[n]) then 1 else 0)
  {
    var a, b := s[..n + 1], s[..n];
    var longer, shorter := set i | 0 <= i < |a| && P(a[i]), set i | 0 <= i < |b| && P(b[i]);
    forall i ensures i in longer <==> i in shorter || (i == n && P(s[n])) {
      if 0 <= i < n {
        assert a[i] == b[i];
      }
    }
    if P(s[n]) {
      assert longer == shorter + {n};
    } else {
      assert longer == shorter;
    }
  }

  /** The values of the present entries, in order: `flatten` over options. */
  function Present<T>(opts: seq<Option<T>>): (r: seq<T>)
    ensures |r| <= |opts|
  {
    if opts == [] then []
    else if opts[0].None? then Present(opts[1..])
    else [opts[0].value] + Present(opts[1..])
  }

  /** With no entry missing, flattening keeps every value. */
  lemma {:induction false} PresentAllSome<T>(opts: seq<Option<T>>, values: seq<T>)
    requires |opts| == |values| && forall i :: 0 <= i < |opts| ==> opts[i] == Some(values[i])
    ensures Present(opts) == values
  {
    if opts != [] {
      PresentAllSome(opts[1..], values[1..]);
      assert values == [values[0]] + values[1..];
    }
  }

  /** With every entry missing, flattening leaves nothing. */
  lemma {:induction false} PresentAllNone<T>(opts: seq<Option<T>>)
    requires forall i :: 0 <= i < |opts| ==> opts[i].None?
    ensures Present(opts) == []
  {
    if opts != [] {
      PresentAllNone(opts[1..]);
    }
  }

  /** Bitwise exclusive or of two naturals, built from the lowest bit up. */
  function Xor(a: nat, b: nat): nat
  {
    if a == 0 then b
    else if b == 0 then a
    else (if a % 2 == b % 2 then 0 else 1) + 2 * Xor(a / 2, b / 2)
  }

  /** Bit `i` of `x`. */
  predicate HasBit(x: nat, i: nat)
  {
    if i == 0 then x % 2 == 1 else HasBit(x / 2, i - 1)
  }

  /** The lowest bit of `Xor(a, b)` is the exclusive or of the lowest bits,
      and the rest is the `Xor` of the rest; this holds for zero arguments too. */
  lemma XorUnfold(a: nat, b: nat)
    ensures Xor(a, b) % 2 == (if a % 2 == b % 2 then 0 else 1)
    ensures Xor(a, b) / 2 == Xor(a / 2, b / 2)
  {
    if a == 0 {
      assert a / 2 == 0;
    } else if b == 0 {
      assert b / 2 == 0;
    } else {
      var bit := if a % 2 == b % 2 then 0 else 1;
      ModUnique(Xor(a, b), 2, Xor(a / 2, b / 2), bit);
    }
  }

  /** `Xor` is the bitwise operation: each bit of the result is set exactly
      when the two arguments differ in that bit. */
  lemma {:induction false} XorBits(a: nat, b: nat, i: nat)
    ensures HasBit(Xor(a, b), i) <==> HasBit(a, i) != HasBit(b, i)
  {
    XorUnfold(a, b);
    if i > 0 {
      XorBits(a / 2, b / 2, i - 1);
    }
  }

  /** Two numbers below `2^k` give a result below `2^k`. */
  lemma {:induction false} XorBelow(a: nat, b: nat, k: nat)
    requires a < Pow(2, k) && b < Pow(2, k)
    ensures Xor(a, b) < Pow(2, k)
  {
    if k > 0 && a > 0 && b > 0 {
      XorBelow(a / 2, b / 2, k - 1);
    }
  }

  /** Undoing: XOR with the same number twice gives the number back. */
  lemma {:induction false} XorTwice(a: nat, b: nat)
    ensures Xor(Xor(a, b), b) == a
    decreases a + b
  {
    var c := Xor(a, b);
    XorUnfold(a, b);
    XorUnfold(c, b);
    if a + b > 0 {
      XorTwice(a / 2, b / 2);
    }
    assert Xor(c, b) == Xor(c, b) % 2 + 2 * (Xor(c, b) / 2);
    assert a == a % 2 + 2 * (a / 2);
  }

  /** Concatenation groups either way. */
  lemma AppendAssociative<T>(a: seq<T>, b: seq<T>, c: seq<T>)
    ensures (a + b) + c == a + (b + c)
  {
  }

  /** Sum of a sequence of integers, taken from the front. */
  function Sum(s: seq<int>): int
  {
    if s == [] then 0 else s[0] + Sum(s[1..])
  }

  lemma {:induction false} SumAppend(a: seq<int>, b: seq<int>)
    ensures Sum(a + b) == Sum(a) + Sum(b)
  {
    if a == [] {
      assert a + b == b;
    } else {
      assert (a + b)[1..] == a[1..] + b;
      SumAppend(a[1..], b);
    }
  }

  lemma {:induction false} SumNonNegative(s: seq<int>)
    requires forall i :: 0 <= i < |s| ==> s[i] >= 0
    ensures Sum(s) >= 0
  {
    if s != [] {
      SumNonNegative(s[1..]);
    }
  }

  /** The maximum of two integers. */
  function Max(a: int, b: int): int
  {
    if a >= b then a else b
  }

  function Abs(x: int): nat
  {
    if x < 0 then -x else x
  }

  /** Integer power with a natural exponent. */
  function Pow(b: nat, e: nat): nat
  {
    if e == 0 then 1 else b * Pow(b, e - 1)
  }

  lemma {:induction false} PowPositive(b: nat, e: nat)
    requires b > 0
    ensures Pow(b, e) > 0
  {
    if e > 0 {
      PowPositive(b, e - 1);
    }
  }

  lemma {:induction false} PowAdd(b: nat, e1: nat, e2: nat)
    ensures Pow(b, e1 + e2) == Pow(b, e1) * Pow(b, e2)
  {
    if e1 > 0 {
      PowAdd(b, e1 - 1, e2);
      assert Pow(b, e1 + e2) == b * Pow(b, e1 - 1 + e2);
    }
  }

  /** Division with remainder has one answer. */
  lemma ModUnique(n: int, c: int, q: int, r: int)
    requires c > 0 && 0 <= r < c && n == q * c + r
    ensures n / c == q && n % c == r
  {
    var q0, r0 := n / c, n % c;
    assert n == q0 * c + r0 && 0 <= r0 < c;
    var d := q0 - q;
    assert d * c == q0 * c - q * c;
    assert d * c == r - r0;
    if d >= 1 {
      MulAtLeast(d, c);
    } else if d <= -1 {
      MulAtLeast(-d, c);
    }
  }

  lemma MulAtLeast(d: int, c: int)
    requires d >= 1 && c > 0
    ensures d * c >= c
  {
  }

  lemma MulNonNegative(a: int, b: int)
    requires a >= 0 && b >= 0
    ensures a * b >= 0
  {
  }

  /** Multiplying by the same factor keeps the order, or reverses it when
      the factor is negative. */
  lemma MulMonotone(m1: int, m2: int, e: int)
    requires m1 <= m2
    ensures e >= 0 ==> m1 * e <= m2 * e
    ensures e < 0 ==> m1 * e >= m2 * e
  {
    assert m2 * e - m1 * e == (m2 - m1) * e;
    if e >= 0 {
      MulNonNegative(m2 - m1, e);
    } else {
      MulNonNegative(m2 - m1, -e);
    }
  }

  lemma NextRow(y: int, w: int)
    ensures (y + 1) * w == y * w + w
  {
  }

  lemma RowsApart(a: int, b: int, w: nat)
    requires a < b
    ensures a * w + w <= b * w
  {
    var k := b - a - 1;
    assert k >= 0;
    assert k * w >= 0;
    assert b == a + 1 + k;
    assert b * w == (a + 1 + k) * w;
    assert (a + 1 + k) * w == a * w + w + k * w;
  }

  /** Pieces laid end to end: the rows of a grid pushed into one vector, or lines joined with nothing between. */
  function Flatten<T>(rows: seq<seq<T>>): seq<T>
  {
    if rows == [] then [] else Flatten(rows[..|rows| - 1]) + rows[|rows| - 1]
  }

  lemma {:induction false} FlattenLength<T>(rows: seq<seq<T>>, width: nat)
    requires forall i :: 0 <= i < |rows| ==> |rows[i]| == width
    ensures |Flatten(rows)| == |rows| * width
  {
    if rows != [] {
      FlattenLength(rows[..|rows| - 1], width);
      assert (|rows| - 1) * width + width == |rows| * width;
    }
  }

  /** With rows of one width, cell (x, y) lands at slot `y * width + x`. */
  lemma {:induction false} FlattenIndex<T>(rows: seq<seq<T>>, width: nat)
    requires forall i :: 0 <= i < |rows| ==> |rows[i]| == width
    ensures |Flatten(rows)| == |rows| * width
    ensures forall y, x :: 0 <= y < |rows| && 0 <= x < width ==>
      y * width + x < |Flatten(rows)| && Flatten(rows)[y * width + x] == rows[y][x]
  {
    FlattenLength(rows, width);
    if rows != [] {
      var front := rows[..|rows| - 1];
      FlattenIndex(front, width);
      var h := |rows| - 1;
      assert Flatten(rows) == Flatten(front) + rows[h];
      forall y, x | 0 <= y < |rows| && 0 <= x < width
        ensures y * width + x < |Flatten(rows)| && Flatten(rows)[y * width + x] == rows[y][x]
      {
        RowsApart(y, |rows|, width);
        if y < h {
          RowsApart(y, h, width);
          assert front[y] == rows[y];
        } else {
          assert y * width + x == |Flatten(front)| + x;
        }
      }
    }
  }

  /** Row `y` occupies slots `y * width` to `y * width + width` of the flattened rows. */
  lemma RowSlots<T>(rows: seq<seq<T>>, width: nat, y: nat)
    requires forall i :: 0 <= i < |rows| ==> |rows[i]| == width
    requires y < |rows|
    ensures |Flatten(rows)| == |rows| * width
    ensures y * width + width <= |Flatten(rows)| && (y + 1) * width == y * width + width
    ensures forall x :: 0 <= x < width ==> Flatten(rows)[y * width + x] == rows[y][x]
  {
    FlattenIndex(rows, width);
    RowsApart(y, |rows|, width);
  }
}
