/** Corrupted memory: scan every offset of the joined text; `do()` and
    `don't()` switch multiplication on and off, and each well-formed
    `mul(A,B)` met while switched on adds A*B. */
module Day03b {
  import opened Common
  import opened Text

  predicate IsDo(s: string, i: nat)
    requires i <= |s|
  {
    StartsWith(s[i..], "do()")
  }

  predicate IsDont(s: string, i: nat)
    requires i <= |s|
  {
    StartsWith(s[i..], "don't()")
  }

  /** `^mul\(([0-9]{1,3}),([0-9]{1,3})\)` at the start of `s`: each operand is
      one to three digits, directly followed by ',' and ')' respectively. */
  function MatchMul(s: string): (r: Option<(nat, nat)>)
    ensures r.Some? ==> r.value.0 < 1000 && r.value.1 < 1000
    ensures r.Some? ==> StartsWith(s, "mul(")
  {
    if !StartsWith(s, "mul(") then None
    else
      var a := DigitRun(s[4..]);
      if !(1 <= a <= 3) || 4 + a >= |s| || s[4 + a] != ',' then None
      else
        var rest := s[5 + a..];
        var b := DigitRun(rest);
        if !(1 <= b <= 3) || b >= |rest| || rest[b] != ')' then None
        else
          var x, y := s[4..][..a], rest[..b];
          DigitsValueBound(x);
          DigitsValueBound(y);
          assert Pow(10, 3) == 1000;
          assert Pow(10, |x|) <= 1000 && Pow(10, |y|) <= 1000;
          Some((DigitsValue(x), DigitsValue(y)))
  }

  /** A well-formed multiplication of values below 1000 is recognised,
      whatever follows it. */
  lemma MatchMulComplete(a: nat, b: nat, rest: string)
    requires a < 1000 && b < 1000
    ensures MatchMul("mul(" + Decimal(a) + "," + Decimal(b) + ")" + rest) == Some((a, b))
  {
    var da, db := Decimal(a), Decimal(b);
    DigitsBelowThousand(a);
    DigitsBelowThousand(b);
    var t2 := ")" + rest;
    var t1 := db + t2;
    var t0 := "," + t1;
    var u := da + t0;
    var s := "mul(" + u;
    assert s == "mul(" + da + "," + db + ")" + rest;
    assert s[..4] == "mul(" && s[4..] == u;
    DigitRunOfDigits(da, t0);
    assert s[4 + |da|] == ',';
    assert s[5 + |da|..] == t1;
    DigitRunOfDigits(db, t2);
    assert t1[|db|] == ')';
    assert u[..|da|] == da;
    assert t1[..|db|] == db;
    DecimalValue(a);
    DecimalValue(b);
  }

  lemma DigitsBelowThousand(n: nat)
    requires n < 1000
    ensures NumDigits(n) <= 3
  {
    NumDigitsBounds(n);
    assert Pow(10, 3) == 1000;
    if NumDigits(n) > 3 {
      PowMonotone(3, NumDigits(n) - 1);
      assert false;
    }
  }

  lemma {:induction false} PowMonotone(a: nat, b: nat)
    requires a <= b
    ensures Pow(10, a) <= Pow(10, b)
    decreases b
  {
    if a < b {
      PowMonotone(a, b - 1);
      PowPositive(10, b - 1);
    }
  }

  /** Whether multiplication is switched on when the scan reaches offset `i`. */
  function EnabledAt(s: string, i: nat): bool
    requires i <= |s|
    decreases i
  {
    if i == 0 then true
    else if IsDo(s, i - 1) then true
    else if IsDont(s, i - 1) then false
    else EnabledAt(s, i - 1)
  }

  /** Switched on exactly when every earlier `don't()` is followed by a later
      `do()` before offset `i`. */
  lemma {:induction false} EnabledAtIff(s: string, i: nat)
    requires i <= |s|
    ensures EnabledAt(s, i) <==>
      forall j :: 0 <= j < i && IsDont(s, j) ==> exists k :: j < k < i && IsDo(s, k)
    decreases i
  {
    if i > 0 {
      EnabledAtIff(s, i - 1);
      if IsDo(s, i - 1) {
        UndoneAfterDo(s, i);
      } else if !IsDont(s, i - 1) {
        UndoneAfterOther(s, i);
      }
    }
  }

  /** A `do()` just before offset `i` undoes every earlier `don't()`. */
  lemma UndoneAfterDo(s: string, i: nat)
    requires 0 < i <= |s| && IsDo(s, i - 1)
    ensures forall j :: 0 <= j < i && IsDont(s, j) ==> exists k :: j < k < i && IsDo(s, k)
  {
    forall j | 0 <= j < i && IsDont(s, j) ensures exists k :: j < k < i && IsDo(s, k) {
      NotBoth(s, j);
    }
  }

  /** An offset starting neither switch changes nothing. */
  lemma UndoneAfterOther(s: string, i: nat)
    requires 0 < i <= |s| && !IsDo(s, i - 1) && !IsDont(s, i - 1)
    ensures (forall j :: 0 <= j < i && IsDont(s, j) ==> exists k :: j < k < i && IsDo(s, k)) <==>
      (forall j :: 0 <= j < i - 1 && IsDont(s, j) ==> exists k :: j < k < i - 1 && IsDo(s, k))
  {
    if forall j :: 0 <= j < i - 1 && IsDont(s, j) ==> exists k :: j < k < i - 1 && IsDo(s, k) {
      forall j | 0 <= j < i && IsDont(s, j) ensures exists k :: j < k < i && IsDo(s, k) {
        var k :| j < k < i - 1 && IsDo(s, k);
      }
    } else {
      var j :| 0 <= j < i - 1 && IsDont(s, j) && !(exists k :: j < k < i - 1 && IsDo(s, k));
      assert !(exists k :: j < k < i && IsDo(s, k));
    }
  }

  /** No offset starts both switches. */
  lemma NotBoth(s: string, j: nat)
    requires j <= |s|
    ensures !(IsDo(s, j) && IsDont(s, j))
  {
    if IsDo(s, j) {
      assert s[j..][..4][2] == '(';
      assert s[j + 2] == '(';
    }
  }

  /** What offset `i` adds to the sum. */
  function Contribution(s: string, i: nat): nat
    requires i < |s|
  {
    if IsDo(s, i) || IsDont(s, i) || !EnabledAt(s, i) then 0 else MulAt(s, i)
  }

  /** The product of the multiplication starting at offset `i`, if one does. */
  function MulAt(s: string, i: nat): nat
    requires i < |s|
  {
    match MatchMul(s[i..])
    case None => 0
    case Some((a, b)) => MulNonNegative(a, b); a * b
  }

  function SumContributions(s: string, n: nat): nat
    requires n <= |s|
  {
    if n == 0 then 0 else SumContributions(s, n - 1) + Contribution(s, n - 1)
  }

  /** Every multiplication in the text, switched on or not. */
  function SumAllMuls(s: string, n: nat): nat
    requires n <= |s|
  {
    if n == 0 then 0
    else SumAllMuls(s, n - 1) + MulAt(s, n - 1)
  }

  /** Without any `don't()` the switches change nothing: every multiplication counts. */
  lemma {:induction false} NoDontCountsEveryMul(s: string, n: nat)
    requires n <= |s|
    requires forall j :: 0 <= j < |s| ==> !IsDont(s, j)
    ensures SumContributions(s, n) == SumAllMuls(s, n)
  {
    if n > 0 {
      NoDontCountsEveryMul(s, n - 1);
      EnabledAtIff(s, n - 1);
      if IsDo(s, n - 1) {
        assert s[n - 1..][..4] == "do()";
        assert MatchMul(s[n - 1..]).None?;
      }
    }
  }

  /** What offset `i` does to the switch and to the sum. */
  lemma ScanStep(s: string, i: nat)
    requires i < |s|
    ensures EnabledAt(s, i + 1) ==
      if IsDo(s, i) then true else if IsDont(s, i) then false else EnabledAt(s, i)
    ensures Contribution(s, i) == if IsDo(s, i) || IsDont(s, i) || !EnabledAt(s, i) then 0 else MulAt(s, i)
    ensures MulAt(s, i) == match MatchMul(s[i..]) case None => 0 case Some((a, b)) => a * b
  {
  }

  /** The scan loop over offsets. */
  method Scan(s: string) returns (sum: nat)
    ensures sum == SumContributions(s, |s|)
  {
    var enabled := true;
    sum := 0;
    for i := 0 to |s|
      invariant enabled == EnabledAt(s, i)
      invariant sum == SumContributions(s, i)
    {
      ScanStep(s, i);
      if StartsWith(s[i..], "do()") {
        enabled := true;
      } else if StartsWith(s[i..], "don't()") {
        enabled := false;
      } else if enabled {
        var m := MatchMul(s[i..]);
        if m.Some? {
          assert m.value.0 * m.value.1 == MulAt(s, i);
          sum := sum + m.value.0 * m.value.1;
        }
      }
    }
  }

  /** The scanner sees every line trimmed, joined with nothing between. */
  method Solve(lines: seq<string>) returns (sum: nat)
    ensures var memory := Flatten(TrimLines(lines)); sum == SumContributions(memory, |memory|)
  {
    sum := Scan(Flatten(TrimLines(lines)));
  }
}
