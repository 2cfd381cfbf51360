/** Character classes, trimming, splitting and decimal numbers, as the
    solvers' line parsers use them. Characters are taken as ASCII. */
module Text {
  import opened Common

  predicate IsDigit(c: char) { '0' <= c <= '9' }

  /** ASCII whitespace: space, tab, line feed, vertical tab, form feed, carriage return. */
  predicate IsSpace(c: char) { c == ' ' || '\t' <= c <= '\r' }

  predicate AllDigits(s: string) { forall i :: 0 <= i < |s| ==> IsDigit(s[i]) }

  function DigitValue(c: char): (d: nat)
    requires IsDigit(c)
    ensures d < 10
  {
    (c as int) - ('0' as int)
  }

  function DigitChar(d: nat): (c: char)
    requires d < 10
    ensures IsDigit(c) && DigitValue(c) == d
  {
    (('0' as int) + d) as char
  }

  /** The value of a string of decimal digits, most significant first. */
  function DigitsValue(s: string): nat
    requires AllDigits(s)
  {
    if s == [] then 0 else 10 * DigitsValue(s[..|s| - 1]) + DigitValue(s[|s| - 1])
  }

  /** Decimal rendering without leading zeros (Rust's `to_string` on an unsigned). */
  function Decimal(n: nat): (s: string)
    ensures |s| >= 1 && AllDigits(s)
    decreases n
  {
    if n < 10 then [DigitChar(n)] else Decimal(n / 10) + [DigitChar(n % 10)]
  }

  /** Number of decimal digits of `n` (1 for 0). */
  function NumDigits(n: nat): nat
  {
    |Decimal(n)|
  }

  lemma {:induction false} DecimalValue(n: nat)
    ensures DigitsValue(Decimal(n)) == n
    ensures |Decimal(n)| > 1 ==> Decimal(n)[0] != '0'
    decreases n
  {
    if n >= 10 {
      var s := Decimal(n);
      assert s[..|s| - 1] == Decimal(n / 10);
      DecimalValue(n / 10);
      assert s[0] == Decimal(n / 10)[0];
    }
  }

  /** The value of the first `k` digits, and of the rest. */
  lemma {:induction false} DigitsValueSplit(s: string, k: nat)
    requires AllDigits(s) && k <= |s|
    ensures DigitsValue(s) == DigitsValue(s[..k]) * Pow(10, |s| - k) + DigitsValue(s[k..])
    decreases |s|
  {
    if k == |s| {
      assert s[..k] == s;
      assert s[k..] == [];
    } else {
      var t := s[..|s| - 1];
      DigitsValueSplit(t, k);
      DropLastDigit(s, k);
      var d, hi, lo, p := DigitValue(s[|s| - 1]), DigitsValue(s[..k]), DigitsValue(t[k..]), Pow(10, |t| - k);
      assert DigitsValue(s) == 10 * DigitsValue(t) + d;
      assert Pow(10, |s| - k) == 10 * p;
      ShiftDigit(hi, p, lo, d);
    }
  }

  /** Dropping the last digit keeps the first `k` and takes one off the rest. */
  lemma DropLastDigit(s: string, k: nat)
    requires AllDigits(s) && k < |s|
    ensures s[..|s| - 1][..k] == s[..k]
    ensures DigitsValue(s[k..]) == 10 * DigitsValue(s[..|s| - 1][k..]) + DigitValue(s[|s| - 1])
  {
    var u := s[k..];
    assert u[..|u| - 1] == s[..|s| - 1][k..];
    assert u[|u| - 1] == s[|s| - 1];
  }

  lemma ShiftDigit(hi: nat, p: nat, lo: nat, d: nat)
    ensures 10 * (hi * p + lo) + d == hi * (10 * p) + (10 * lo + d)
  {
    assert 10 * (hi * p) == hi * (10 * p);
  }

  lemma {:induction false} DigitsValueBound(s: string)
    requires AllDigits(s)
    ensures DigitsValue(s) < Pow(10, |s|)
    decreases |s|
  {
    if s != [] {
      DigitsValueBound(s[..|s| - 1]);
    }
  }

  lemma {:induction false} NumDigitsBounds(n: nat)
    ensures n < Pow(10, NumDigits(n))
    ensures NumDigits(n) > 1 ==> Pow(10, NumDigits(n) - 1) <= n
    decreases n
  {
    if n >= 10 {
      NumDigitsBounds(n / 10);
      assert NumDigits(n) == NumDigits(n / 10) + 1;
    }
  }

  /** The bounds of Rust's `u32` and `u64`: every value is below them. */
  const U32_LIMIT: nat := 0x1_0000_0000
  const U64_LIMIT: nat := 0x1_0000_0000_0000_0000

  /** Rust's `str::parse` for an unsigned integer type whose values are below
      `limit`: an optional '+', then one or more ASCII digits, and the value
      must fit. Anything else is an error. */
  function ParseUnsigned(s: string, limit: nat): (r: Result<nat>)
    ensures r.Ok? ==> r.value < limit
  {
    var digits := if |s| > 0 && s[0] == '+' then s[1..] else s;
    if digits == [] then Err("cannot parse integer from empty string")
    else if !AllDigits(digits) then Err("invalid digit found in string")
    else if DigitsValue(digits) >= limit then Err("number too large to fit in target type")
    else Ok(DigitsValue(digits))
  }

  /** The magnitude bounds of Rust's `i32` and `i64`: values lie in
      `-limit .. limit - 1`. */
  const I32_LIMIT: nat := 0x8000_0000
  const I64_LIMIT: nat := 0x8000_0000_0000_0000

  /** Rust's `str::parse` for a two's-complement type whose values are
      `-limit .. limit - 1`: an optional sign, then one or more ASCII
      digits, value within range. */
  function ParseSigned(s: string, limit: nat): (r: Result<int>)
    requires limit > 0
    ensures r.Ok? ==> -(limit as int) <= r.value < limit
  {
    var negative := |s| > 0 && s[0] == '-';
    var digits := if |s| > 0 && (s[0] == '+' || s[0] == '-') then s[1..] else s;
    if digits == [] then Err("cannot parse integer from empty string")
    else if !AllDigits(digits) then Err("invalid digit found in string")
    else if negative && DigitsValue(digits) > limit then Err("number too small to fit in target type")
    else if !negative && DigitsValue(digits) >= limit then Err("number too large to fit in target type")
    else
      var v: int := if negative then -(DigitsValue(digits) as int) else DigitsValue(digits);
      Ok(v)
  }

  /** `collect::<Result<Vec<_>>>` over unsigned parses of the pieces: the
      values in order, or the error of the first piece that is not a number
      below `limit`. */
  function ParseUnsignedAll(pieces: seq<string>, limit: nat): (r: Result<seq<nat>>)
    ensures r.Ok? <==> forall i :: 0 <= i < |pieces| ==> ParseUnsigned(pieces[i], limit).Ok?
    ensures r.Ok? ==> (|r.value| == |pieces| &&
      forall i :: 0 <= i < |pieces| ==> ParseUnsigned(pieces[i], limit) == Ok(r.value[i]))
  {
    if pieces == [] then Ok([])
    else
      var first :- ParseUnsigned(pieces[0], limit);
      var rest :- ParseUnsignedAll(pieces[1..], limit);
      assert forall i :: 1 <= i < |pieces| ==> pieces[i] == pieces[1..][i - 1];
      Ok([first] + rest)
  }

  /** Parsing the decimal rendering of a value gives the value back. */
  lemma ParseDecimal(n: nat, limit: nat)
    requires n < limit
    ensures ParseUnsigned(Decimal(n), limit) == Ok(n)
  {
    DecimalValue(n);
  }

  /** `str::trim`: drop leading and trailing whitespace. */
  function TrimStart(s: string): (r: string)
    ensures |r| <= |s| && r == s[|s| - |r|..]
    ensures r == [] || !IsSpace(r[0])
  {
    if s != [] && IsSpace(s[0]) then TrimStart(s[1..]) else s
  }

  function TrimEnd(s: string): (r: string)
    ensures |r| <= |s| && r == s[..|r|]
    ensures r == [] || !IsSpace(r[|r| - 1])
  {
    if s != [] && IsSpace(s[|s| - 1]) then TrimEnd(s[..|s| - 1]) else s
  }

  function Trim(s: string): (r: string)
    ensures r == [] || (!IsSpace(r[0]) && !IsSpace(r[|r| - 1]))
  {
    TrimEnd(TrimStart(s))
  }

  predicate IsBlank(s: string) { Trim(s) == [] }

  /** Every line trimmed. */
  function TrimLines(lines: seq<string>): (r: seq<string>)
    ensures |r| == |lines| && forall i :: 0 <= i < |lines| ==> r[i] == Trim(lines[i])
  {
    seq(|lines|, i requires 0 <= i < |lines| => Trim(lines[i]))
  }

  /** Every line trimmed, the blank ones dropped (the `filter_map` in the solvers). */
  function NonBlankLines(lines: seq<string>): (r: seq<string>)
    ensures |r| <= |lines|
    ensures forall i :: 0 <= i < |r| ==> r[i] != [] && r[i] == Trim(r[i])
  {
    if lines == [] then []
    else
      var rest := NonBlankLines(lines[1..]);
      var t := Trim(lines[0]);
      if t == [] then rest
      else
        TrimIdempotent(lines[0]);
        assert forall i :: 0 < i < |rest| + 1 ==> ([t] + rest)[i] == rest[i - 1];
        [t] + rest
  }

  /** Per-line results that are `None` exactly for the blank lines, once
      flattened, line up with the non-blank lines: each kept value stands in
      relation `P` to its trimmed line. */
  lemma {:induction false} PresentNonBlank<T>(lines: seq<string>, parsed: seq<Option<T>>, P: (string, T) -> bool)
    requires |parsed| == |lines|
    requires forall i :: 0 <= i < |lines| ==>
      (parsed[i].None? <==> Trim(lines[i]) == []) && (parsed[i].Some? ==> P(Trim(lines[i]), parsed[i].value))
    ensures |Present(parsed)| == |NonBlankLines(lines)|
    ensures forall k :: 0 <= k < |NonBlankLines(lines)| ==> P(NonBlankLines(lines)[k], Present(parsed)[k])
  {
    if lines != [] {
      PresentNonBlankTail(lines, parsed, P);
      PresentNonBlank(lines[1..], parsed[1..], P);
      if parsed[0].None? {
        assert NonBlankLines(lines) == NonBlankLines(lines[1..]);
        assert Present(parsed) == Present(parsed[1..]);
      } else {
        PresentNonBlankCons(lines, parsed, P);
      }
    }
  }

  lemma PresentNonBlankTail<T>(lines: seq<string>, parsed: seq<Option<T>>, P: (string, T) -> bool)
    requires |parsed| == |lines| >= 1
    requires forall i :: 0 <= i < |lines| ==>
      (parsed[i].None? <==> Trim(lines[i]) == []) && (parsed[i].Some? ==> P(Trim(lines[i]), parsed[i].value))
    ensures forall i :: 0 <= i < |lines| - 1 ==>
      (parsed[1..][i].None? <==> Trim(lines[1..][i]) == []) &&
      (parsed[1..][i].Some? ==> P(Trim(lines[1..][i]), parsed[1..][i].value))
  {
    forall i | 0 <= i < |lines| - 1
      ensures (parsed[1..][i].None? <==> Trim(lines[1..][i]) == []) &&
              (parsed[1..][i].Some? ==> P(Trim(lines[1..][i]), parsed[1..][i].value))
    {
      assert lines[1..][i] == lines[i + 1] && parsed[1..][i] == parsed[i + 1];
    }
  }

  lemma NonBlankLinesCons(lines: seq<string>)
    requires lines != [] && Trim(lines[0]) != []
    ensures NonBlankLines(lines) == [Trim(lines[0])] + NonBlankLines(lines[1..])
  {
  }

  lemma PresentNonBlankCons<T>(lines: seq<string>, parsed: seq<Option<T>>, P: (string, T) -> bool)
    requires |parsed| == |lines| >= 1 && parsed[0].Some? && Trim(lines[0]) != []
    requires P(Trim(lines[0]), parsed[0].value)
    requires |Present(parsed[1..])| == |NonBlankLines(lines[1..])|
    requires forall k :: 0 <= k < |NonBlankLines(lines[1..])| ==>
      P(NonBlankLines(lines[1..])[k], Present(parsed[1..])[k])
    ensures |Present(parsed)| == |NonBlankLines(lines)|
    ensures forall k :: 0 <= k < |NonBlankLines(lines)| ==> P(NonBlankLines(lines)[k], Present(parsed)[k])
  {
    var kept, rest := NonBlankLines(lines[1..]), Present(parsed[1..]);
    NonBlankLinesCons(lines);
    assert Present(parsed) == [parsed[0].value] + rest;
    AlignedCons(Trim(lines[0]), kept, parsed[0].value, rest, P);
  }

  /** Related heads in front of related tails keep two sequences related. */
  lemma AlignedCons<T>(t: string, kept: seq<string>, v: T, rest: seq<T>, P: (string, T) -> bool)
    requires P(t, v) && |kept| == |rest| && forall k :: 0 <= k < |kept| ==> P(kept[k], rest[k])
    ensures forall k :: 0 <= k < |kept| + 1 ==> P(([t] + kept)[k], ([v] + rest)[k])
  {
    forall k | 0 <= k < |kept| + 1 ensures P(([t] + kept)[k], ([v] + rest)[k]) {
      if k > 0 {
        assert ([t] + kept)[k] == kept[k - 1] && ([v] + rest)[k] == rest[k - 1];
      }
    }
  }

  lemma TrimIdempotent(s: string)
    ensures Trim(Trim(s)) == Trim(s)
  {
    var t := Trim(s);
    if t != [] {
      assert TrimStart(t) == t;
      assert TrimEnd(t) == t;
    }
  }

  /** Every line is as long as the first. */
  predicate SameWidth(lines: seq<string>)
  {
    forall i :: 0 <= i < |lines| ==> |lines[i]| == |lines[0]|
  }

  predicate StartsWith(s: string, prefix: string)
  {
    |prefix| <= |s| && s[..|prefix|] == prefix
  }

  /** A string that starts with a prefix is the prefix and what follows. */
  lemma StartsWithSplit(s: string, prefix: string)
    requires StartsWith(s, prefix)
    ensures s == prefix + s[|prefix|..]
  {
    assert s == s[..|prefix|] + s[|prefix|..];
  }

  /** A prefix put in front of a string is a prefix, and what follows it is the string. */
  lemma Prefixed(prefix: string, rest: string)
    ensures StartsWith(prefix + rest, prefix) && (prefix + rest)[|prefix|..] == rest
  {
    assert (prefix + rest)[..|prefix|] == prefix;
  }

  /** Index of the first occurrence of `c` in `s`, which must occur. */
  function IndexOf(s: string, c: char): (i: nat)
    requires c in s
    ensures i < |s| && s[i] == c && c !in s[..i]
  {
    if s[0] == c then 0 else IndexOf(s[1..], c) + 1
  }

  /** `str::split` on a character: the pieces between occurrences of `sep`. */
  function SplitOn(s: string, sep: char): (r: seq<string>)
    ensures |r| >= 1
    ensures forall i :: 0 <= i < |r| ==> sep !in r[i]
    decreases |s|
  {
    if sep !in s then [s]
    else
      var i := IndexOf(s, sep);
      [s[..i]] + SplitOn(s[i + 1..], sep)
  }

  /** Re-joining the pieces with the separator gives the input back. */
  function Join(pieces: seq<string>, sep: char): string
    requires |pieces| >= 1
  {
    if |pieces| == 1 then pieces[0] else pieces[0] + [sep] + Join(pieces[1..], sep)
  }

  lemma {:induction false} JoinSplitOn(s: string, sep: char)
    ensures Join(SplitOn(s, sep), sep) == s
    decreases |s|
  {
    if sep in s {
      var i := IndexOf(s, sep);
      var rest := s[i + 1..];
      var pieces := [s[..i]] + SplitOn(rest, sep);
      assert SplitOn(s, sep) == pieces;
      assert pieces[1..] == SplitOn(rest, sep);
      assert Join(pieces, sep) == s[..i] + [sep] + Join(SplitOn(rest, sep), sep);
      JoinSplitOn(rest, sep);
      assert s == s[..i] + [sep] + rest;
    }
  }

  /** Splitting pieces joined by a separator none of them contains gives the pieces back. */
  lemma {:induction false} SplitOnJoin(pieces: seq<string>, sep: char)
    requires |pieces| >= 1 && forall i :: 0 <= i < |pieces| ==> sep !in pieces[i]
    ensures SplitOn(Join(pieces, sep), sep) == pieces
    decreases |pieces|
  {
    if |pieces| > 1 {
      var rest := Join(pieces[1..], sep);
      var s := Join(pieces, sep);
      assert s == pieces[0] + [sep] + rest;
      assert s[..|pieces[0]|] == pieces[0];
      assert IndexOf(s, sep) == |pieces[0]| by {
        IndexOfPrefix(pieces[0], sep, rest);
      }
      assert s[|pieces[0]| + 1..] == rest;
      SplitOnJoin(pieces[1..], sep);
      assert pieces == [pieces[0]] + pieces[1..];
    }
  }

  /** `s` cut at its only `sep`, when it holds exactly one. */
  function SplitPair(s: string, sep: char): Option<(string, string)>
  {
    var parts := SplitOn(s, sep);
    if |parts| == 2 then Some((parts[0], parts[1])) else None
  }

  /** `s` cuts into `a` and `b` exactly when it is `a`, the separator and
      `b`, and neither part holds the separator. */
  lemma SplitPairShape(s: string, sep: char, a: string, b: string)
    ensures SplitPair(s, sep) == Some((a, b)) <==> s == a + [sep] + b && sep !in a && sep !in b
  {
    var parts := SplitOn(s, sep);
    if SplitPair(s, sep) == Some((a, b)) {
      JoinSplitOn(s, sep);
      assert Join(parts[1..], sep) == b;
    }
    if s == a + [sep] + b && sep !in a && sep !in b {
      assert Join([a, b], sep) == s by {
        assert Join([a, b][1..], sep) == b;
      }
      SplitOnJoin([a, b], sep);
    }
  }

  lemma {:induction false} IndexOfPrefix(a: string, sep: char, rest: string)
    requires sep !in a
    ensures sep in a + [sep] + rest && IndexOf(a + [sep] + rest, sep) == |a|
    decreases |a|
  {
    var s := a + [sep] + rest;
    assert s[|a|] == sep;
    if a != [] {
      assert s[1..] == a[1..] + [sep] + rest;
      IndexOfPrefix(a[1..], sep, rest);
    }
  }

  /** Every character of a join is the separator or a character of a piece. */
  lemma {:induction false} InJoin(pieces: seq<string>, sep: char, c: char)
    requires |pieces| >= 1 && c in Join(pieces, sep)
    ensures c == sep || exists i :: 0 <= i < |pieces| && c in pieces[i]
    decreases |pieces|
  {
    if |pieces| > 1 && c !in pieces[0] && c != sep {
      InJoin(pieces[1..], sep, c);
      var i :| 0 <= i < |pieces[1..]| && c in pieces[1..][i];
      assert c in pieces[i + 1];
    }
  }

  /** A string without whitespace at either end is its own trim. */
  lemma TrimUnchanged(s: string)
    requires s == [] || (!IsSpace(s[0]) && !IsSpace(s[|s| - 1]))
    ensures Trim(s) == s
  {
  }

  /** Lines that are already trimmed and not blank pass through unchanged. */
  lemma {:induction false} NonBlankLinesKept(lines: seq<string>)
    requires forall i :: 0 <= i < |lines| ==> lines[i] != [] && Trim(lines[i]) == lines[i]
    ensures NonBlankLines(lines) == lines
  {
    if lines != [] {
      NonBlankLinesKept(lines[1..]);
      assert lines == [lines[0]] + lines[1..];
    }
  }

  /** A decimal rendering has no whitespace to trim. */
  lemma DecimalTrimmed(n: nat)
    ensures Trim(Decimal(n)) == Decimal(n)
  {
    var d := Decimal(n);
    assert IsDigit(d[0]) && IsDigit(d[|d| - 1]);
    TrimUnchanged(d);
  }

  /** Length of the leading run of whitespace. */
  function SpaceRun(s: string): (n: nat)
    ensures n <= |s|
    ensures forall i :: 0 <= i < n ==> IsSpace(s[i])
    ensures n == |s| || !IsSpace(s[n])
  {
    if s != [] && IsSpace(s[0]) then 1 + SpaceRun(s[1..]) else 0
  }

  /** Length of the leading run of non-whitespace. */
  function WordRun(s: string): (n: nat)
    ensures n <= |s|
    ensures forall i :: 0 <= i < n ==> !IsSpace(s[i])
    ensures n == |s| || IsSpace(s[n])
  {
    if s != [] && !IsSpace(s[0]) then 1 + WordRun(s[1..]) else 0
  }

  /** A regular-expression split on `\s+`: the pieces between maximal runs
      of whitespace (an empty piece where the string starts or ends with one). */
  function SplitSpaces(s: string): (r: seq<string>)
    ensures |r| >= 1
    ensures forall i, j :: 0 <= i < |r| && 0 <= j < |r[i]| ==> !IsSpace(r[i][j])
    decreases |s|
  {
    var w := WordRun(s);
    if w == |s| then [s]
    else
      var rest := s[w..];
      [s[..w]] + SplitSpaces(rest[SpaceRun(rest)..])
  }

  /** On a trimmed line every piece of the split is a non-empty word. */
  lemma {:induction false} SplitSpacesTrimmed(s: string)
    requires s != [] && !IsSpace(s[0]) && !IsSpace(s[|s| - 1])
    ensures forall i :: 0 <= i < |SplitSpaces(s)| ==> SplitSpaces(s)[i] != []
    decreases |s|
  {
    var w := WordRun(s);
    if w < |s| {
      var rest := s[w..];
      var t := rest[SpaceRun(rest)..];
      assert t != [] && t[|t| - 1] == s[|s| - 1];
      SplitSpacesTrimmed(t);
      assert SplitSpaces(s) == [s[..w]] + SplitSpaces(t);
    }
  }

  /** Length of the leading run of ASCII digits. */
  function DigitRun(s: string): (n: nat)
    ensures n <= |s| && AllDigits(s[..n])
    ensures n == |s| || !IsDigit(s[n])
  {
    if s != [] && IsDigit(s[0]) then
      var n := 1 + DigitRun(s[1..]);
      assert s[..n] == [s[0]] + s[1..][..n - 1];
      n
    else 0
  }

  lemma {:induction false} DigitRunOfDigits(a: string, rest: string)
    requires AllDigits(a) && (rest == [] || !IsDigit(rest[0]))
    ensures DigitRun(a + rest) == |a|
    decreases |a|
  {
    if a != [] {
      assert (a + rest)[1..] == a[1..] + rest;
      DigitRunOfDigits(a[1..], rest);
    } else {
      assert a + rest == rest;
    }
  }

  lemma {:induction false} SpaceRunOfSpaces(sp: string, rest: string)
    requires forall i :: 0 <= i < |sp| ==> IsSpace(sp[i])
    requires rest == [] || !IsSpace(rest[0])
    ensures SpaceRun(sp + rest) == |sp|
    decreases |sp|
  {
    if sp != [] {
      assert (sp + rest)[1..] == sp[1..] + rest;
      SpaceRunOfSpaces(sp[1..], rest);
    } else {
      assert sp + rest == rest;
    }
  }

  /** The byte-wise lexicographic order of Rust's `String` comparison. */
  predicate NameLe(a: string, b: string)
  {
    a == [] || (b != [] && (a[0] < b[0] || (a[0] == b[0] && NameLe(a[1..], b[1..]))))
  }

  lemma {:induction false} NameLeTotal(a: string, b: string)
    ensures NameLe(a, b) || NameLe(b, a)
  {
    if a != [] && b != [] && a[0] == b[0] {
      NameLeTotal(a[1..], b[1..]);
    }
  }

  lemma {:induction false} NameLeTransitive(a: string, b: string, c: string)
    requires NameLe(a, b) && NameLe(b, c)
    ensures NameLe(a, c)
  {
    if a != [] && a[0] == b[0] && b[0] == c[0] {
      NameLeTransitive(a[1..], b[1..], c[1..]);
    }
  }

  lemma {:induction false} NameLeAntisymmetric(a: string, b: string)
    requires NameLe(a, b) && NameLe(b, a)
    ensures a == b
  {
    if a != [] {
      NameLeAntisymmetric(a[1..], b[1..]);
      assert a == [a[0]] + a[1..] && b == [b[0]] + b[1..];
    }
  }
}
