/** Crossed wires, part one: initial wire values and AND/OR/XOR gates are
    read line by line, the gates are evaluated in rounds until none is
    left, and the wires whose names start with 'z', taken in name order,
    are the bits of the answer, least significant first. */
module Day24a {
  import opened Common
  import opened Text

  datatype Op = And | Or | Xor

  /** A gate as it is stored under its output name. */
  datatype Gate = Gate(input1: string, op: Op, input2: string)

  /** A line of the input: an initial wire value, or a gate. */
  datatype Line = Wire(name: string, value: bool) | Wiring(output: string, gate: Gate)

  /** The two possible results of the evaluation loop: every gate was
      evaluated, or a round found no gate to evaluate, a state the loop
      never leaves. */
  datatype Outcome =
    | Settled(values: map<string, bool>)
    | Stuck(values: map<string, bool>, pending: map<string, Gate>)

  /** What `do_it` does: returns a result, or loops forever. */
  datatype Run = Returns(result: Result<nat>) | Diverges

  // -------------------------------------------------------------- parsing

  predicate IsAlnum(c: char)
  {
    'a' <= c <= 'z' || 'A' <= c <= 'Z' || '0' <= c <= '9'
  }

  /** `[a-zA-Z0-9]+` */
  predicate IsName(s: string)
  {
    s != [] && forall i :: 0 <= i < |s| ==> IsAlnum(s[i])
  }

  function OpName(op: Op): string
  {
    match op
    case And => "AND"
    case Or => "OR"
    case Xor => "XOR"
  }

  function OpOf(s: string): (r: Option<Op>)
    ensures r.Some? ==> OpName(r.value) == s
    ensures forall op :: s == OpName(op) ==> r == Some(op)
  {
    if s == "AND" then Some(And)
    else if s == "OR" then Some(Or)
    else if s == "XOR" then Some(Xor)
    else None
  }

  predicate WellFormed(l: Line)
  {
    match l
    case Wire(name, _) => IsName(name)
    case Wiring(output, g) => IsName(g.input1) && IsName(g.input2) && IsName(output)
  }

  /** The words of the line the two patterns accept, separated by single
      spaces. */
  function Words(l: Line): seq<string>
  {
    match l
    case Wire(name, value) => [name + ":", if value then "1" else "0"]
    case Wiring(output, g) => [g.input1, OpName(g.op), g.input2, "->", output]
  }

  /** The text of a line. */
  function Render(l: Line): string
  {
    Join(Words(l), ' ')
  }

  /** `^([a-zA-Z0-9]+): (0|1)$` on the words of a line. */
  function WireWords(words: seq<string>): (r: Option<Line>)
    ensures r.Some? ==> r.value.Wire? && WellFormed(r.value) && Words(r.value) == words
  {
    if |words| == 2 && |words[0]| >= 2 && words[0][|words[0]| - 1] == ':' && IsName(words[0][..|words[0]| - 1])
       && (words[1] == "0" || words[1] == "1")
    then
      var l := Wire(words[0][..|words[0]| - 1], words[1] == "1");
      assert words[0] == l.name + ":";
      Some(l)
    else None
  }

  /** `^([a-zA-Z0-9]+) (AND|OR|XOR) ([a-zA-Z0-9]+) -> ([a-zA-Z0-9]+)$` on
      the words of a line. */
  function GateWords(words: seq<string>): (r: Option<Line>)
    ensures r.Some? ==> r.value.Wiring? && WellFormed(r.value) && Words(r.value) == words
  {
    if |words| == 5 && IsName(words[0]) && OpOf(words[1]).Some? && IsName(words[2]) && words[3] == "->"
       && IsName(words[4])
    then Some(Wiring(words[4], Gate(words[0], OpOf(words[1]).value, words[2])))
    else None
  }

  /** One character as `{:?}` writes it inside a quoted string: the quote,
      the backslash and the control characters with a short escape get a
      backslash; every other character stands for itself. */
  function EscapeChar(c: char): (r: string)
    ensures |r| >= 1
  {
    if c == '"' then "\\\""
    else if c == '\\' then "\\\\"
    else if c == '\n' then "\\n"
    else if c == '\r' then "\\r"
    else if c == '\t' then "\\t"
    else if c == '\0' then "\\0"
    else [c]
  }

  /** The characters of a string escaped one by one. */
  function Escape(s: string): (r: string)
    ensures |r| >= |s|
  {
    if s == [] then [] else EscapeChar(s[0]) + Escape(s[1..])
  }

  /** Reading an escaped string back: a backslash and the character after
      it stand for one character, and a bare quote or a dangling backslash
      is not the output of `Escape`. */
  function Unescape(s: string): Option<string>
  {
    if s == [] then Some([])
    else if s[0] == '"' then None
    else if s[0] != '\\' then
      match Unescape(s[1..])
      case None => None
      case Some(rest) => Some([s[0]] + rest)
    else if |s| < 2 then None
    else
      var c :=
        if s[1] == 'n' then '\n' else if s[1] == 'r' then '\r'
        else if s[1] == 't' then '\t' else if s[1] == '0' then '\0' else s[1];
      match Unescape(s[2..])
      case None => None
      case Some(rest) => Some([c] + rest)
  }

  /** Escaping loses nothing: the escaped text reads back as the line, so
      the message names the line exactly, whatever quotes it holds. */
  lemma {:induction false} UnescapeEscape(s: string)
    ensures Unescape(Escape(s)) == Some(s)
  {
    if s != [] {
      UnescapeEscape(s[1..]);
      UnescapeOne(s[0], Escape(s[1..]), s[1..]);
      assert s == [s[0]] + s[1..];
    }
  }

  /** One escaped character followed by text that reads back reads back. */
  lemma UnescapeOne(c: char, t: string, rest: string)
    requires Unescape(t) == Some(rest)
    ensures Unescape(EscapeChar(c) + t) == Some([c] + rest)
  {
    var e := EscapeChar(c);
    if |e| == 1 {
      assert e == [c] && c != '"' && c != '\\';
      assert (e + t)[0] == c && (e + t)[1..] == t;
    } else {
      assert |e| == 2 && e[0] == '\\';
      assert (e + t)[0] == '\\' && (e + t)[1] == e[1] && (e + t)[2..] == t;
    }
  }

  /** The message for a line that is neither form: `{:?}` of the line, in
      quotes and escaped. */
  function LineError(line: string): (r: string)
    ensures |r| >= |line| + 22
    ensures r[..21] == "error parsing line: \"" && r[|r| - 1] == '"'
    ensures Unescape(r[21..|r| - 1]) == Some(line)
  {
    UnescapeEscape(line);
    var r := "error parsing line: \"" + Escape(line) + "\"";
    assert r[21..|r| - 1] == Escape(line);
    r
  }

  /** The two regular expressions of `do_it`, anchored at both ends: a
      wire `name: 0|1`, or a gate `a OP b -> out`; anything else is an
      error naming the line. */
  function ParseLine(line: string): (r: Result<Line>)
    ensures r.Ok? ==> WellFormed(r.value) && Render(r.value) == line
    ensures r.Err? ==> r.msg == LineError(line)
  {
    var words := SplitOn(line, ' ');
    JoinSplitOn(line, ' ');
    match WireWords(words)
    case Some(l) => Ok(l)
    case None =>
      match GateWords(words)
      case Some(l) => Ok(l)
      case None => Err(LineError(line))
  }

  lemma NoSpaceInName(s: string)
    requires IsName(s)
    ensures ' ' !in s && ':' !in s && s[|s| - 1] != ':'
  {
    forall k | 0 <= k < |s| ensures s[k] != ' ' && s[k] != ':' {
      assert IsAlnum(s[k]);
    }
  }

  /** No word of a well-formed line holds a space. */
  lemma WordsWithoutSpaces(l: Line)
    requires WellFormed(l)
    ensures forall i :: 0 <= i < |Words(l)| ==> ' ' !in Words(l)[i]
  {
    match l
    case Wire(name, value) =>
      NoSpaceInName(name);
      assert ' ' !in name + ":";
    case Wiring(output, g) =>
      NoSpaceInName(g.input1);
      NoSpaceInName(g.input2);
      NoSpaceInName(output);
      assert ' ' !in OpName(g.op);
  }

  /** Every well-formed line is read back as itself: with `ParseLine`'s
      own contract, a line is accepted exactly when it is the text of a
      well-formed line. */
  lemma ParseRender(l: Line)
    requires WellFormed(l)
    ensures ParseLine(Render(l)) == Ok(l)
  {
    var words := Words(l);
    WordsWithoutSpaces(l);
    SplitOnJoin(words, ' ');
    assert SplitOn(Render(l), ' ') == words;
    match l
    case Wire(name, value) =>
      assert words[0][..|words[0]| - 1] == name;
      assert WireWords(words) == Some(l);
    case Wiring(output, g) =>
      assert OpOf(words[1]) == Some(g.op);
      NoSpaceInName(g.input1);
      assert WireWords(words) == None;
      assert GateWords(words) == Some(l);
  }

  /** The initial values and the gates after a prefix of the lines: each
      line overwrites an earlier one with the same name; the first line
      that is neither form stops the reading. */
  function Circuit(lines: seq<string>): (r: Result<(map<string, bool>, map<string, Gate>)>)
  {
    if lines == [] then Ok((map[], map[]))
    else
      match Circuit(lines[..|lines| - 1])
      case Err(e) => Err(e)
      case Ok(state) => Extend(state, lines[|lines| - 1])
  }

  /** One line read into the values or the gates. */
  function Extend(state: (map<string, bool>, map<string, Gate>), line: string): (r: Result<(map<string, bool>, map<string, Gate>)>)
    ensures r.Ok? <==> ParseLine(line).Ok?
    ensures r.Err? ==> r.msg == ParseLine(line).msg
  {
    match ParseLine(line)
    case Err(e) => Err(e)
    case Ok(Wire(name, value)) => Ok((state.0[name := value], state.1))
    case Ok(Wiring(output, g)) => Ok((state.0, state.1[output := g]))
  }

  /** The lines are read without error exactly when every line is of one
      of the two forms. */
  lemma CircuitReads(lines: seq<string>)
    ensures Circuit(lines).Ok? <==> forall i :: 0 <= i < |lines| ==> ParseLine(lines[i]).Ok?
  {
    if Circuit(lines).Ok? {
      CircuitSound(lines);
    } else {
      var i := CircuitFirstError(lines);
    }
  }

  /** A reading without error means every line is of one of the two forms. */
  lemma {:induction false} CircuitSound(lines: seq<string>)
    requires Circuit(lines).Ok?
    ensures forall i :: 0 <= i < |lines| ==> ParseLine(lines[i]).Ok?
  {
    if lines != [] {
      var init := lines[..|lines| - 1];
      CircuitSound(init);
      forall i | 0 <= i < |lines|
        ensures ParseLine(lines[i]).Ok?
      {
        if i < |init| {
          assert lines[i] == init[i] && ParseLine(init[i]).Ok?;
        } else {
          assert i == |lines| - 1;
        }
      }
    }
  }

  /** A failed reading carries the error of the first line that is neither
      form. */
  lemma {:induction false} CircuitFirstError(lines: seq<string>) returns (i: nat)
    requires Circuit(lines).Err?
    ensures i < |lines| && ParseLine(lines[i]) == Err(Circuit(lines).msg)
    ensures forall k :: 0 <= k < i ==> ParseLine(lines[k]).Ok?
  {
    var init := lines[..|lines| - 1];
    if Circuit(init).Err? {
      i := CircuitFirstError(init);
      assert forall k :: 0 <= k < |init| ==> init[k] == lines[k];
    } else {
      i := |lines| - 1;
      CircuitSound(init);
      assert forall k :: 0 <= k < |init| ==> init[k] == lines[k];
    }
  }

  /** The line loop of `do_it`. */
  method ReadCircuit(lines: seq<string>) returns (r: Result<(map<string, bool>, map<string, Gate>)>)
    ensures r == Circuit(lines)
  {
    var values: map<string, bool> := map[];
    var gates: map<string, Gate> := map[];
    for k := 0 to |lines|
      invariant Circuit(lines[..k]) == Ok((values, gates))
    {
      assert lines[..k + 1][..k] == lines[..k];
      var l := ParseLine(lines[k]);
      if l.Err? {
        assert Circuit(lines[..k + 1]).Err?;
        CircuitPrefix(lines, k + 1);
        return Err(l.msg);
      }
      match l.value
      case Wire(name, value) => values := values[name := value];
      case Wiring(output, g) => gates := gates[output := g];
      assert Circuit(lines[..k + 1]) == Ok((values, gates));
    }
    assert lines[..|lines|] == lines;
    return Ok((values, gates));
  }

  /** Once a prefix fails, the whole input fails with the same error. */
  lemma {:induction false} CircuitPrefix(lines: seq<string>, k: nat)
    requires k <= |lines| && Circuit(lines[..k]).Err?
    ensures Circuit(lines) == Circuit(lines[..k])
    decreases |lines| - k
  {
    if k < |lines| {
      assert lines[..k + 1][..k] == lines[..k];
      CircuitPrefix(lines, k + 1);
    } else {
      assert lines[..k] == lines;
    }
  }

  // ----------------------------------------------------------- evaluation

  function Apply(op: Op, a: bool, b: bool): bool
  {
    match op
    case And => a && b
    case Or => a || b
    case Xor => a != b
  }

  /** Both inputs of the gate have values. */
  predicate Ready(values: map<string, bool>, g: Gate)
  {
    g.input1 in values && g.input2 in values
  }

  predicate NoneReady(values: map<string, bool>, gates: map<string, Gate>)
  {
    forall n :: n in gates ==> !Ready(values, gates[n])
  }

  /** The output wire of every gate of `done` holds its operation applied
      to its inputs. */
  predicate Solved(values: map<string, bool>, gates: map<string, Gate>, done: set<string>)
  {
    forall n :: n in done ==>
      n in gates && n in values && Ready(values, gates[n]) &&
      values[n] == Apply(gates[n].op, values[gates[n].input1], values[gates[n].input2])
  }

  /** Every gate's output wire holds its operation applied to its inputs. */
  predicate Solution(values: map<string, bool>, gates: map<string, Gate>)
  {
    Solved(values, gates, gates.Keys)
  }

  /** Writing a fresh wire keeps every solved gate solved. */
  lemma Evaluated(values: map<string, bool>, gates: map<string, Gate>, done: set<string>, name: string, v: bool)
    requires Solved(values, gates, done) && name in gates && name !in values
    requires Ready(values, gates[name]) && v == Apply(gates[name].op, values[gates[name].input1], values[gates[name].input2])
    ensures Solved(values[name := v], gates, done + {name})
  {
  }

  /** What a round has done once the gates outside `todo` are visited. */
  ghost predicate RoundSoFar(values: map<string, bool>, gates: map<string, Gate>,
                       values': map<string, bool>, done: set<string>, todo: set<string>)
  {
    todo <= gates.Keys && done <= gates.Keys && todo !! done &&
    (forall n :: n in values' <==> n in values || n in done) &&
    (forall n :: n in values && n !in done ==> values'[n] == values[n]) &&
    (forall n :: n in gates && n !in todo && Ready(values, gates[n]) ==> n in done) &&
    (NoneReady(values, gates) ==> done == {} && values' == values) &&
    (gates.Keys !! values.Keys ==> Solved(values', gates, done))
  }

  /** Visiting one more gate keeps the account of the round. */
  lemma RoundStep(values: map<string, bool>, gates: map<string, Gate>,
                  values': map<string, bool>, done: set<string>, todo: set<string>, name: string)
    requires RoundSoFar(values, gates, values', done, todo) && name in todo
    ensures var g := gates[name];
      if Ready(values', g) then
        RoundSoFar(values, gates, values'[name := Apply(g.op, values'[g.input1], values'[g.input2])], done + {name}, todo - {name})
      else
        RoundSoFar(values, gates, values', done, todo - {name})
  {
    var g := gates[name];
    if Ready(values', g) {
      var v := Apply(g.op, values'[g.input1], values'[g.input2]);
      if gates.Keys !! values.Keys {
        Evaluated(values', gates, done, name, v);
      }
    } else {
      assert !Ready(values, g);
    }
  }

  /** One pass of the `while` body: every gate, in the map's own order,
      is evaluated when both its inputs have values at that moment, and
      the evaluated gates are collected for removal. */
  method Round(values: map<string, bool>, gates: map<string, Gate>) returns (values': map<string, bool>, done: set<string>)
    ensures done <= gates.Keys
    ensures values'.Keys == values.Keys + done
    ensures forall n :: n in values && n !in done ==> values'[n] == values[n]
    ensures forall n :: n in gates && Ready(values, gates[n]) ==> n in done
    ensures NoneReady(values, gates) ==> done == {} && values' == values
    ensures gates.Keys !! values.Keys ==> Solved(values', gates, done)
  {
    values', done := values, {};
    var todo := gates.Keys;
    while todo != {}
      invariant RoundSoFar(values, gates, values', done, todo)
      decreases |todo|
    {
      var name :| name in todo;
      var g := gates[name];
      RoundStep(values, gates, values', done, todo, name);
      if g.input1 in values' && g.input2 in values' {
        values' := values'[name := Apply(g.op, values'[g.input1], values'[g.input2])];
        done := done + {name};
      }
      todo := todo - {name};
    }
    assert values'.Keys == values.Keys + done;
  }

  /** The `while !gates.is_empty()` loop. It leaves when no gate is left,
      and reports the state in which a round evaluates nothing: from there
      every further round changes nothing, so the source never leaves the
      loop. When no gate writes a wire that has an initial value, every
      wire is written once and the settled values solve every gate. */
  method Evaluate(values: map<string, bool>, gates: map<string, Gate>) returns (r: Outcome)
    ensures r.Settled? ==> r.values.Keys == values.Keys + gates.Keys
    ensures r.Settled? ==> forall n :: n in values && n !in gates ==> r.values[n] == values[n]
    ensures r.Settled? && gates.Keys !! values.Keys ==> Solution(r.values, gates)
    ensures r.Stuck? ==> r.pending != map[] && NoneReady(r.values, r.pending)
    ensures r.Stuck? ==> r.pending.Keys <= gates.Keys && forall n :: n in r.pending ==> r.pending[n] == gates[n]
    ensures r.Stuck? ==> r.values.Keys == values.Keys + (gates.Keys - r.pending.Keys)
  {
    var vals, pending := values, gates;
    while pending != map[]
      invariant EvaluatedSoFar(values, gates, vals, pending)
      decreases |pending.Keys|
    {
      var vals', done := Round(vals, pending);
      if done == {} {
        return Stuck(vals, pending);
      }
      Shrinks(pending.Keys, done);
      EvaluateStep(values, gates, vals, pending, vals', done);
      pending := pending - done;
      vals := vals';
    }
    EvaluateDone(values, gates, vals);
    return Settled(vals);
  }

  /** With nothing pending, every gate of the circuit is evaluated. */
  lemma EvaluateDone(values: map<string, bool>, gates: map<string, Gate>, vals: map<string, bool>)
    requires EvaluatedSoFar(values, gates, vals, map[])
    ensures vals.Keys == values.Keys + gates.Keys
    ensures forall n :: n in values && n !in gates ==> vals[n] == values[n]
    ensures gates.Keys !! values.Keys ==> Solution(vals, gates)
  {
    var none: map<string, Gate> := map[];
    assert gates.Keys - none.Keys == gates.Keys;
  }

  /** What the `while` loop keeps: the gates still pending are those of
      the circuit not evaluated yet, and the evaluated ones are solved. */
  ghost predicate EvaluatedSoFar(values: map<string, bool>, gates: map<string, Gate>,
                                 vals: map<string, bool>, pending: map<string, Gate>)
  {
    pending.Keys <= gates.Keys && (forall n :: n in pending ==> pending[n] == gates[n]) &&
    (forall n :: n in vals <==> n in values || (n in gates && n !in pending)) &&
    (forall n :: n in values && n !in gates ==> vals[n] == values[n]) &&
    (gates.Keys !! values.Keys ==> Solved(vals, gates, gates.Keys - pending.Keys))
  }

  /** A round over the pending gates keeps the loop's account. */
  lemma EvaluateStep(values: map<string, bool>, gates: map<string, Gate>,
                     vals: map<string, bool>, pending: map<string, Gate>,
                     vals': map<string, bool>, done: set<string>)
    requires EvaluatedSoFar(values, gates, vals, pending)
    requires done <= pending.Keys && vals'.Keys == vals.Keys + done
    requires forall n :: n in vals && n !in done ==> vals'[n] == vals[n]
    requires pending.Keys !! vals.Keys ==> Solved(vals', pending, done)
    ensures EvaluatedSoFar(values, gates, vals', pending - done)
  {
    if gates.Keys !! values.Keys {
      assert pending.Keys !! vals.Keys;
      forall n | n in gates.Keys - (pending - done).Keys
        ensures n in gates && n in vals' && Ready(vals', gates[n])
        ensures vals'[n] == Apply(gates[n].op, vals'[gates[n].input1], vals'[gates[n].input2])
      {
        if n in done {
          assert pending[n] == gates[n];
        } else {
          assert n in gates.Keys - pending.Keys;
        }
      }
    }
  }

  lemma Shrinks<T>(s: set<T>, d: set<T>)
    requires d <= s && d != {}
    ensures |s - d| < |s|
  {
    var x :| x in d;
    assert s - d <= s - {x};
  }

  // ---------------------------------------------------------------- bits

  /** Strictly ascending names. */
  predicate Ascending(s: seq<string>)
  {
    forall i, j :: 0 <= i < j < |s| ==> NameLe(s[i], s[j]) && s[i] != s[j]
  }

  /** The first of ascending names comes before every one of them. */
  lemma FirstIsLeast(a: seq<string>, n: string)
    requires Ascending(a) && n in a
    ensures NameLe(a[0], n)
  {
    var i :| 0 <= i < |a| && a[i] == n;
    if i == 0 {
      NameLeTotal(n, n);
    }
  }

  /** Two strictly ascending sequences of the same names are equal: the
      name order of a set of names is unique. */
  lemma {:induction false} AscendingUnique(a: seq<string>, b: seq<string>)
    requires Ascending(a) && Ascending(b)
    requires forall n :: n in a <==> n in b
    ensures a == b
  {
    assert a != [] ==> a[0] in b;
    assert b != [] ==> b[0] in a;
    if a != [] && b != [] {
      FirstIsLeast(a, b[0]);
      FirstIsLeast(b, a[0]);
      NameLeAntisymmetric(a[0], b[0]);
      forall n ensures n in a[1..] <==> n in b[1..] {
        if n in a[1..] { assert n != a[0]; assert n in b; }
        if n in b[1..] { assert n != b[0]; assert n in a; }
      }
      AscendingUnique(a[1..], b[1..]);
      assert a == [a[0]] + a[1..] && b == [b[0]] + b[1..];
    }
  }

  /** Insert a name into an ascending sequence. */
  function InsertName(s: seq<string>, x: string): (r: seq<string>)
    requires Ascending(s) && x !in s
    ensures Ascending(r) && forall n :: n in r <==> n in s || n == x
    ensures |r| == |s| + 1
  {
    if s == [] then [x]
    else if NameLe(x, s[0]) then
      assert forall k :: 0 <= k < |s| ==> NameLe(x, s[k]) by {
        forall k | 0 <= k < |s| ensures NameLe(x, s[k]) {
          if k > 0 { NameLeTransitive(x, s[0], s[k]); }
        }
      }
      [x] + s
    else
      NameLeTotal(x, s[0]);
      var r := [s[0]] + InsertName(s[1..], x);
      assert forall k :: 1 <= k < |r| ==> r[k] in s[1..] || r[k] == x;
      r
  }

  /** The sort of the names collected from the map: distinct names, so
      the sort is strict. */
  function SortNames(s: seq<string>): (r: seq<string>)
    requires forall i, j :: 0 <= i < j < |s| ==> s[i] != s[j]
    ensures Ascending(r) && |r| == |s| && forall n :: n in r <==> n in s
  {
    if s == [] then []
    else InsertName(SortNames(s[..|s| - 1]), s[|s| - 1])
  }

  /** The wires whose names carry the prefix. */
  ghost function PrefixSet(values: map<string, bool>, prefix: string): set<string>
  {
    set n | n in values && StartsWith(n, prefix)
  }

  /** The wires carrying the prefix, in name order. */
  ghost function PrefixNames(values: map<string, bool>, prefix: string): (r: seq<string>)
    ensures Ascending(r) && forall n :: n in r <==> n in PrefixSet(values, prefix)
  {
    NamesExist(PrefixSet(values, prefix));
    var s :| Ascending(s) && forall n :: n in s <==> n in PrefixSet(values, prefix);
    s
  }

  lemma {:induction false} NamesExist(zs: set<string>)
    ensures exists s :: Ascending(s) && forall n :: n in s <==> n in zs
    decreases |zs|
  {
    if zs == {} {
      assert Ascending([]);
    } else {
      var x :| x in zs;
      NamesExist(zs - {x});
      var s :| Ascending(s) && forall n :: n in s <==> n in zs - {x};
      var r := InsertName(s, x);
      assert forall n :: n in r <==> n in zs;
    }
  }

  /** The value of bits given least significant first. */
  function BitsValue(bits: seq<bool>): nat
  {
    if bits == [] then 0 else (if bits[0] then 1 else 0) + 2 * BitsValue(bits[1..])
  }

  /** Bit `i` of a number. */
  function Bit(n: nat, i: nat): bool
  {
    if i == 0 then n % 2 == 1 else Bit(n / 2, i - 1)
  }

  /** Bit `i` of the value is the `i`-th bit, and the value fits the bits. */
  lemma {:induction false} BitsValueBits(bits: seq<bool>, i: nat)
    requires i < |bits|
    ensures Bit(BitsValue(bits), i) == bits[i]
  {
    var v := BitsValue(bits);
    var rest := BitsValue(bits[1..]);
    assert v / 2 == rest && v % 2 == (if bits[0] then 1 else 0);
    if i > 0 {
      BitsValueBits(bits[1..], i - 1);
    }
  }

  lemma {:induction false} BitsValueBound(bits: seq<bool>)
    ensures BitsValue(bits) < Pow(2, |bits|)
  {
    if bits != [] {
      BitsValueBound(bits[1..]);
    }
  }

  /** Appending a bit adds it at the next power of two. */
  lemma {:induction false} BitsValueAppend(bits: seq<bool>, b: bool)
    ensures BitsValue(bits + [b]) == BitsValue(bits) + (if b then Pow(2, |bits|) else 0)
  {
    if bits != [] {
      assert (bits + [b])[1..] == bits[1..] + [b];
      BitsValueAppend(bits[1..], b);
    } else {
      assert [b][1..] == [];
    }
  }

  /** The values of the named wires, in order. */
  function Lookup(values: map<string, bool>, names: seq<string>): (bits: seq<bool>)
    requires forall n :: n in names ==> n in values
    ensures |bits| == |names| && forall i :: 0 <= i < |names| ==> bits[i] == values[names[i]]
  {
    if names == [] then [] else [values[names[0]]] + Lookup(values, names[1..])
  }

  /** The final loop of `do_it`: filter the wires carrying the prefix
      (the z-wires), sort them by name, and add `1 << shift` for every set
      one. */
  method NumberFromPrefix(values: map<string, bool>, prefix: string) returns (result: nat)
    ensures result == BitsValue(Lookup(values, PrefixNames(values, prefix)))
  {
    var collected := CollectPrefix(values, prefix);
    var names := SortNames(collected);
    AscendingUnique(names, PrefixNames(values, prefix));
    result := Assemble(Lookup(values, names));
  }

  /** The names with the prefix, each once, in the map's iteration order. */
  method CollectPrefix(values: map<string, bool>, prefix: string) returns (collected: seq<string>)
    ensures forall i, j :: 0 <= i < j < |collected| ==> collected[i] != collected[j]
    ensures forall n :: n in collected <==> n in PrefixSet(values, prefix)
  {
    collected := [];
    var todo := values.Keys;
    while todo != {}
      invariant todo <= values.Keys
      invariant forall i, j :: 0 <= i < j < |collected| ==> collected[i] != collected[j]
      invariant forall n :: n in collected <==> n in PrefixSet(values, prefix) && n !in todo
      decreases |todo|
    {
      var name :| name in todo;
      if StartsWith(name, prefix) {
        collected := collected + [name];
      }
      todo := todo - {name};
    }
  }

  /** The `fold` over the bits: bit `i` adds `1 << i`. */
  method Assemble(bits: seq<bool>) returns (result: nat)
    ensures result == BitsValue(bits)
  {
    result := 0;
    var shift := 0;
    while shift < |bits|
      invariant shift <= |bits| && result == BitsValue(bits[..shift])
    {
      BitsValueAppend(bits[..shift], bits[shift]);
      assert bits[..shift + 1] == bits[..shift] + [bits[shift]];
      result := result + if bits[shift] then Pow(2, shift) else 0;
      shift := shift + 1;
    }
    assert bits[..shift] == bits;
  }

  // ---------------------------------------------------------------- do_it

  /** `do_it`: trim and drop blank lines, read the circuit, evaluate it,
      assemble the z-wires. A circuit that gets stuck makes the source
      loop forever. */
  method Solve(lines: seq<string>) returns (r: Run, ghost values: map<string, bool>)
    ensures Circuit(NonBlankLines(lines)).Err? ==> r == Returns(Err(Circuit(NonBlankLines(lines)).msg))
    ensures Circuit(NonBlankLines(lines)).Ok? ==> !(r.Returns? && r.result.Err?)
    ensures r.Returns? && r.result.Ok? ==>
      var (initial, gates) := Circuit(NonBlankLines(lines)).value;
      values.Keys == initial.Keys + gates.Keys &&
      (forall n :: n in initial && n !in gates ==> values[n] == initial[n]) &&
      (gates.Keys !! initial.Keys ==> Solution(values, gates)) &&
      r.result.value == BitsValue(Lookup(values, PrefixNames(values, "z")))
    ensures r.Diverges? ==> Circuit(NonBlankLines(lines)).Ok?
  {
    values := map[];
    var circuit := ReadCircuit(NonBlankLines(lines));
    if circuit.Err? {
      return Returns(Err(circuit.msg)), values;
    }
    var (initial, gates) := circuit.value;
    var outcome := Evaluate(initial, gates);
    if outcome.Stuck? {
      return Diverges, values;
    }
    values := outcome.values;
    var n := NumberFromPrefix(outcome.values, "z");
    return Returns(Ok(n)), values;
  }
}
