/** Crossed wires, part two: the gates of the circuit are resolved into
    expression trees whose two inputs are kept in a canonical order, and
    the tree behind each z-wire can be set beside the tree of a textbook
    ripple-carry adder and compared with it. */
module Day24b {
  import opened Common
  import opened Text
  import Day24a

  /** An input of a gate: a wire with an initial value, or another gate. */
  datatype Input = Wire(wire: string) | Sub(gate: Gate)

  /** A gate with its inputs resolved into trees. */
  datatype Gate = Gate(name: string, input1: Input, input2: Input, op: Day24a.Op)

  datatype Ordering = Less | Equal | Greater

  /** The result of resolving a name. `Endless` is a resolution that comes
      back to a gate it is still resolving: the source recurses without
      end there. */
  datatype Resolution<+T> = Built(value: T) | Failed(msg: string) | Endless

  // ------------------------------------------------------------- ordering

  function Flip(o: Ordering): Ordering
  {
    match o
    case Less => Greater
    case Equal => Equal
    case Greater => Less
  }

  /** `str::cmp`: lexicographic order of the names. */
  function CompareNames(a: string, b: string): Ordering
  {
    if a == b then Equal else if NameLe(a, b) then Less else Greater
  }

  /** `Ord for Input`: wires before gates, wires by name, gates by their
      first input and then by their second; names and operations of gates
      take no part. */
  function Compare(a: Input, b: Input): Ordering
  {
    match (a, b)
    case (Wire(x), Wire(y)) => CompareNames(x, y)
    case (Wire(_), Sub(_)) => Less
    case (Sub(_), Wire(_)) => Greater
    case (Sub(g), Sub(h)) =>
      var first := Compare(g.input1, h.input1);
      if first != Equal then first else Compare(g.input2, h.input2)
  }

  /** Two trees with the same wiring: the same wires in the same places,
      whatever the names and operations of their gates. */
  predicate SameWiring(a: Input, b: Input)
  {
    match (a, b)
    case (Wire(x), Wire(y)) => x == y
    case (Sub(g), Sub(h)) => SameWiring(g.input1, h.input1) && SameWiring(g.input2, h.input2)
    case _ => false
  }

  lemma CompareNamesFlip(a: string, b: string)
    ensures CompareNames(b, a) == Flip(CompareNames(a, b))
  {
    NameLeTotal(a, b);
    if NameLe(a, b) && NameLe(b, a) {
      NameLeAntisymmetric(a, b);
    }
  }

  /** Exchanging the operands reverses the order. */
  lemma {:induction false} CompareFlip(a: Input, b: Input)
    ensures Compare(b, a) == Flip(Compare(a, b))
  {
    match (a, b)
    case (Wire(x), Wire(y)) => CompareNamesFlip(x, y);
    case (Wire(_), Sub(_)) =>
    case (Sub(_), Wire(_)) =>
    case (Sub(g), Sub(h)) =>
      CompareFlip(g.input1, h.input1);
      CompareFlip(g.input2, h.input2);
  }

  /** The trees `cmp` calls equal are exactly those with the same wiring. */
  lemma {:induction false} CompareEqual(a: Input, b: Input)
    ensures Compare(a, b) == Equal <==> SameWiring(a, b)
  {
    match (a, b)
    case (Wire(x), Wire(y)) =>
    case (Wire(_), Sub(_)) =>
    case (Sub(_), Wire(_)) =>
    case (Sub(g), Sub(h)) =>
      CompareEqual(g.input1, h.input1);
      CompareEqual(g.input2, h.input2);
  }

  lemma CompareNamesTransitive(a: string, b: string, c: string)
    requires CompareNames(a, b) != Greater && CompareNames(b, c) != Greater
    ensures CompareNames(a, c) == (if CompareNames(a, b) == Equal && CompareNames(b, c) == Equal then Equal else Less)
  {
    if a != b && b != c {
      NameLeTransitive(a, b, c);
      if a == c {
        NameLeAntisymmetric(a, b);
      }
    }
  }

  /** The order is transitive: `sort_by` on it is meaningful. */
  lemma {:induction false} CompareTransitive(a: Input, b: Input, c: Input)
    requires Compare(a, b) != Greater && Compare(b, c) != Greater
    ensures Compare(a, c) == (if Compare(a, b) == Equal && Compare(b, c) == Equal then Equal else Less)
  {
    match (a, b, c)
    case (Wire(x), Wire(y), Wire(z)) => CompareNamesTransitive(x, y, z);
    case (Wire(_), Wire(_), Sub(_)) =>
    case (Wire(_), Sub(_), Sub(_)) =>
    case (Sub(g), Sub(h), Sub(k)) =>
      CompareTransitive(g.input1, h.input1, k.input1);
      if Compare(g.input1, h.input1) == Equal && Compare(h.input1, k.input1) == Equal {
        CompareTransitive(g.input2, h.input2, k.input2);
      }
  }

  // ------------------------------------------------------------ normalized

  /** `Gate::normalized`: the inputs are swapped when the first sorts after
      the second. */
  function Normalized(g: Gate): (r: Gate)
    ensures r.name == g.name && r.op == g.op
    ensures (r.input1, r.input2) == (g.input1, g.input2) || (r.input1, r.input2) == (g.input2, g.input1)
  {
    if Compare(g.input1, g.input2) == Greater then Gate(g.name, g.input2, g.input1, g.op) else g
  }

  /** After `normalized` the first input never sorts after the second. */
  lemma NormalizedOrdered(g: Gate)
    ensures Compare(Normalized(g).input1, Normalized(g).input2) != Greater
  {
    CompareFlip(g.input1, g.input2);
  }

  /** Every gate of the tree has its inputs in order. */
  predicate Normal(i: Input)
  {
    match i
    case Wire(_) => true
    case Sub(g) => Compare(g.input1, g.input2) != Greater && Normal(g.input1) && Normal(g.input2)
  }

  // ------------------------------------------------------------------ diff

  /** `x` is `t` or a tree somewhere inside it. */
  predicate Within(x: Input, t: Input)
  {
    x == t || (t.Sub? && (Within(x, t.gate.input1) || Within(x, t.gate.input2)))
  }

  /** `Input::diff` and `Gate::diff`: nothing for trees with the same
      wiring, otherwise the first place where the wiring differs, first
      inputs before second ones. */
  function Diff(a: Input, b: Input): (r: Option<(Input, Input)>)
    ensures r.None? <==> SameWiring(a, b)
    ensures r.Some? ==> r.value.0 != r.value.1 && Within(r.value.0, a) && Within(r.value.1, b)
  {
    match (a, b)
    case (Wire(x), Wire(y)) => if x == y then None else Some((a, b))
    case (Wire(_), Sub(_)) => Some((a, b))
    case (Sub(_), Wire(_)) => Some((a, b))
    case (Sub(g), Sub(h)) => GateDiff(g, h)
  }

  function GateDiff(g: Gate, h: Gate): (r: Option<(Input, Input)>)
    ensures r.None? <==> SameWiring(g.input1, h.input1) && SameWiring(g.input2, h.input2)
    ensures r.Some? ==>
      r.value.0 != r.value.1 &&
      (Within(r.value.0, g.input1) || Within(r.value.0, g.input2)) &&
      (Within(r.value.1, h.input1) || Within(r.value.1, h.input2))
  {
    var first := Diff(g.input1, h.input1);
    if first.Some? then first else Diff(g.input2, h.input2)
  }

  /** Diffing the other way round finds the same place. */
  lemma {:induction false} DiffSymmetric(a: Input, b: Input)
    ensures Diff(b, a) == if Diff(a, b).Some? then Some((Diff(a, b).value.1, Diff(a, b).value.0)) else None
  {
    match (a, b)
    case (Wire(x), Wire(y)) =>
    case (Wire(_), Sub(_)) =>
    case (Sub(_), Wire(_)) =>
    case (Sub(g), Sub(h)) =>
      DiffSymmetric(g.input1, h.input1);
      DiffSymmetric(g.input2, h.input2);
  }

  // ------------------------------------------------------------- resolving

  /** The name a tree stands for: its wire, or its top gate's output. */
  function Top(i: Input): string
  {
    match i
    case Wire(n) => n
    case Sub(g) => g.name
  }

  /** The tree agrees with the circuit: every wire is an initial wire and
      not a gate output, and every gate is the circuit's gate of that name,
      with its operation and its two inputs in either order. */
  predicate Follows(wires: set<string>, gates: map<string, Day24a.Gate>, i: Input)
  {
    match i
    case Wire(n) => n in wires && n !in gates
    case Sub(g) =>
      g.name in gates && g.name !in wires && g.op == gates[g.name].op &&
      multiset{Top(g.input1), Top(g.input2)} == multiset{gates[g.name].input1, gates[g.name].input2} &&
      Follows(wires, gates, g.input1) && Follows(wires, gates, g.input2)
  }

  lemma Fewer(keys: set<string>, path: set<string>, name: string)
    requires name in keys && name !in path
    ensures |keys - (path + {name})| < |keys - path|
  {
    assert keys - (path + {name}) == (keys - path) - {name};
  }

  /** `Input::new`: a name that is only an initial wire becomes a wire, a
      name that is only a gate output becomes that gate's tree, and a name
      that is both or neither is an error. `path` holds the gates whose
      resolution is under way. */
  function ResolveInput(wires: set<string>, gates: map<string, Day24a.Gate>, name: string, path: set<string>): (r: Resolution<Input>)
    ensures r.Built? ==> Top(r.value) == name && Normal(r.value) && Follows(wires, gates, r.value)
    decreases |gates.Keys - path|, 1
  {
    if name in wires && name !in gates then Built(Wire(name))
    else if name !in wires && name in gates then
      match ResolveGate(wires, gates, name, path)
      case Built(g) => Built(Sub(g))
      case Failed(msg) => Failed(msg)
      case Endless => Endless
    else if name !in wires then Failed("no wire or gate named \"" + name + "\"")
    else Failed("both a wire and a gate are named \"" + name + "\"")
  }

  /** `Gate::new`: the gate of that name with both inputs resolved, in
      normalized order. */
  function ResolveGate(wires: set<string>, gates: map<string, Day24a.Gate>, name: string, path: set<string>): (r: Resolution<Gate>)
    ensures r.Built? && name !in wires ==> Top(Sub(r.value)) == name && Normal(Sub(r.value)) && Follows(wires, gates, Sub(r.value))
    ensures r.Built? ==> name in gates && r.value.name == name && r.value.op == gates[name].op
    decreases |gates.Keys - path|, 0
  {
    if name !in gates then Failed("no such gate: \"" + name + "\"")
    else if name in path then Endless
    else
      Fewer(gates.Keys, path, name);
      var gate := gates[name];
      match ResolveInput(wires, gates, gate.input1, path + {name})
      case Failed(msg) => Failed(msg)
      case Endless => Endless
      case Built(input1) =>
        match ResolveInput(wires, gates, gate.input2, path + {name})
        case Failed(msg) => Failed(msg)
        case Endless => Endless
        case Built(input2) =>
          NormalizedOrdered(Gate(name, input1, input2, gate.op));
          Built(Normalized(Gate(name, input1, input2, gate.op)))
  }

  // ------------------------------------------------------------ evaluation

  /** The value a tree computes when the wires hold `env`. */
  function Eval(env: string -> bool, i: Input): bool
  {
    match i
    case Wire(n) => env(n)
    case Sub(g) => Day24a.Apply(g.op, Eval(env, g.input1), Eval(env, g.input2))
  }

  /** The wire values of a settled circuit, as a total function. */
  function Env(values: map<string, bool>): string -> bool
  {
    n => if n in values then values[n] else false
  }

  /** A tree resolved from a circuit computes what the circuit's evaluation
      stores on the tree's top wire. */
  lemma {:induction false} TreeValue(values: map<string, bool>, gates: map<string, Day24a.Gate>, wires: set<string>, i: Input)
    requires Follows(wires, gates, i) && wires <= values.Keys && Day24a.Solution(values, gates)
    ensures Top(i) in values && Eval(Env(values), i) == values[Top(i)]
  {
    match i
    case Wire(n) =>
    case Sub(g) =>
      TreeValue(values, gates, wires, g.input1);
      TreeValue(values, gates, wires, g.input2);
      var raw := gates[g.name];
      assert g.name in gates.Keys;
      if Top(g.input1) != raw.input1 {
        assert Top(g.input1) in multiset{raw.input1, raw.input2};
      }
  }

  /** Swapping the inputs of a gate does not change what it computes. */
  lemma EvalNormalized(env: string -> bool, g: Gate)
    ensures Eval(env, Sub(Normalized(g))) == Eval(env, Sub(g))
  {
  }

  // ----------------------------------------------------------------- adder

  /** `{:02}`: at least two digits, padded with a leading zero. */
  function Pad2(n: nat): (s: string)
    ensures |s| >= 2 && AllDigits(s)
  {
    if n < 10 then "0" + Decimal(n) else Decimal(n)
  }

  /** `format!("x{:02}", bit)` and the like. */
  function Named(prefix: string, bit: nat): string
  {
    prefix + Pad2(bit)
  }

  /** The adder's gates for any way of naming the wires and gates of a bit;
      the proofs below hold for every naming. */
  function AdderNamed(bit: nat, name: (string, nat) -> string): (r: (Gate, Gate))
    ensures r.0.name == name("z", bit) && r.1.name == name("c", bit)
  {
    var x, y := Wire(name("x", bit)), Wire(name("y", bit));
    if bit == 0 then
      (Normalized(Gate(name("z", bit), x, y, Day24a.Xor)),
       Normalized(Gate(name("c", bit), x, y, Day24a.And)))
    else
      var carry := AdderNamed(bit - 1, name).1;
      var partial := Normalized(Gate(name("partial", bit), x, y, Day24a.Xor));
      var result := Normalized(Gate(name("z", bit), Sub(partial), Sub(carry), Day24a.Xor));
      var carried := Normalized(Gate(name("partial", bit), Sub(partial), Sub(carry), Day24a.And));
      var both := Normalized(Gate(name("partial", bit), x, y, Day24a.And));
      (result, Normalized(Gate(name("c", bit), Sub(carried), Sub(both), Day24a.Or)))
  }

  /** `Gate::new_adder`: the sum gate of bit `bit` of a ripple-carry adder
      over the x- and y-wires, named `z..`, and the carry out of that bit,
      named `c..`. */
  function Adder(bit: nat): (r: (Gate, Gate))
    ensures r.0.name == "z" + Pad2(bit) && r.1.name == "c" + Pad2(bit)
  {
    AdderNamed(bit, Named)
  }

  /** Normalizing a gate whose inputs are normal trees gives a normal tree. */
  lemma NormalizedNormal(g: Gate)
    requires Normal(g.input1) && Normal(g.input2)
    ensures Normal(Sub(Normalized(g)))
  {
    NormalizedOrdered(g);
  }

  lemma AdderNormalFirst(name: (string, nat) -> string)
    ensures Normal(Sub(AdderNamed(0, name).0)) && Normal(Sub(AdderNamed(0, name).1))
  {
    var x, y := Wire(name("x", 0)), Wire(name("y", 0));
    NormalizedNormal(Gate(name("z", 0), x, y, Day24a.Xor));
    NormalizedNormal(Gate(name("c", 0), x, y, Day24a.And));
  }

  /** The gates the adder builds for bit `m + 1` are normal when the carry
      tree of bit `m` is. */
  lemma AdderNormalStep(m: nat, name: (string, nat) -> string)
    requires Normal(Sub(AdderNamed(m, name).1))
    ensures Normal(Sub(AdderNamed(m + 1, name).0)) && Normal(Sub(AdderNamed(m + 1, name).1))
  {
    var bit := m + 1;
    var x, y := Wire(name("x", bit)), Wire(name("y", bit));
    var carry := AdderNamed(m, name).1;
    var partial := Gate(name("partial", bit), x, y, Day24a.Xor);
    var result := Gate(name("z", bit), Sub(Normalized(partial)), Sub(carry), Day24a.Xor);
    var carried := Gate(name("partial", bit), Sub(Normalized(partial)), Sub(carry), Day24a.And);
    var both := Gate(name("partial", bit), x, y, Day24a.And);
    var out := Gate(name("c", bit), Sub(Normalized(carried)), Sub(Normalized(both)), Day24a.Or);
    assert AdderNamed(bit, name) == (Normalized(result), Normalized(out));
    NormalizedNormal(partial);
    NormalizedNormal(result);
    NormalizedNormal(carried);
    NormalizedNormal(both);
    NormalizedNormal(out);
  }

  /** Every gate of the adder's trees has its inputs in order. */
  lemma {:induction false} AdderNormal(bit: nat, name: (string, nat) -> string)
    ensures Normal(Sub(AdderNamed(bit, name).0)) && Normal(Sub(AdderNamed(bit, name).1))
  {
    if bit == 0 {
      AdderNormalFirst(name);
    } else {
      AdderNormal(bit - 1, name);
      AdderNormalStep(bit - 1, name);
    }
  }

  /** The bits on the lowest `n` wires of the prefix, least significant first. */
  function Bits(env: string -> bool, name: (string, nat) -> string, prefix: string, n: nat): seq<bool>
  {
    seq(n, i requires 0 <= i => env(name(prefix, i)))
  }

  /** The sum of the numbers on the lowest `n` x- and y-wires. */
  function Sum(env: string -> bool, name: (string, nat) -> string, n: nat): nat
  {
    Day24a.BitsValue(Bits(env, name, "x", n)) + Day24a.BitsValue(Bits(env, name, "y", n))
  }

  function B(b: bool): nat { if b then 1 else 0 }

  lemma BitsStep(env: string -> bool, name: (string, nat) -> string, prefix: string, n: nat)
    ensures Day24a.BitsValue(Bits(env, name, prefix, n + 1))
         == Day24a.BitsValue(Bits(env, name, prefix, n)) + B(env(name(prefix, n))) * Pow(2, n)
    ensures Day24a.BitsValue(Bits(env, name, prefix, n)) < Pow(2, n)
  {
    assert Bits(env, name, prefix, n + 1) == Bits(env, name, prefix, n) + [env(name(prefix, n))];
    Day24a.BitsValueAppend(Bits(env, name, prefix, n), env(name(prefix, n)));
    Day24a.BitsValueBound(Bits(env, name, prefix, n));
  }

  lemma SumStep(env: string -> bool, name: (string, nat) -> string, n: nat)
    ensures Sum(env, name, n + 1) == Sum(env, name, n) + (B(env(name("x", n))) + B(env(name("y", n)))) * Pow(2, n)
    ensures Sum(env, name, n) < 2 * Pow(2, n)
  {
    BitsStep(env, name, "x", n);
    BitsStep(env, name, "y", n);
  }

  /** Bit `n` of `r + t * 2^n`, with `r` below `2^n`, is the low bit of `t`. */
  lemma {:induction false} BitAbove(r: nat, t: nat, n: nat)
    requires r < Pow(2, n)
    ensures Day24a.Bit(r + t * Pow(2, n), n) == (t % 2 == 1)
  {
    if n > 0 {
      var half := Pow(2, n - 1);
      assert r + t * Pow(2, n) == r + 2 * (t * half);
      assert (r + t * Pow(2, n)) / 2 == r / 2 + t * half;
      BitAbove(r / 2, t, n - 1);
    }
  }

  /** A full adder: the sum bit and the carry out of two bits and a carry in. */
  function SumBit(x: bool, y: bool, c: bool): bool { (x != y) != c }
  function CarryBit(x: bool, y: bool, c: bool): bool { ((x != y) && c) || (x && y) }

  /** One bit of the ripple: the incoming carry and the two bits of this
      position give the sum bit and the outgoing carry. */
  lemma RippleStep(s: nat, next: nat, n: nat, c: bool, x: bool, y: bool)
    requires s < 2 * Pow(2, n) && c == (s >= Pow(2, n))
    requires next == s + (B(x) + B(y)) * Pow(2, n)
    ensures Day24a.Bit(next, n) == SumBit(x, y, c)
    ensures (next >= Pow(2, n + 1)) == CarryBit(x, y, c)
  {
    var m := Pow(2, n);
    assert Pow(2, n + 1) == 2 * m;
    var r := s - B(c) * m;
    var t := B(c) + B(x) + B(y);
    assert next == r + t * m;
    BitAbove(r, t, n);
  }

  /** What the trees of bit `n` compute from the bits of that position
      and the carry tree of the bit below: a full adder. */
  lemma AdderGates(env: string -> bool, name: (string, nat) -> string, n: nat)
    ensures var x, y := env(name("x", n)), env(name("y", n));
      var c := if n == 0 then false else Eval(env, Sub(AdderNamed(n - 1, name).1));
      Eval(env, Sub(AdderNamed(n, name).0)) == SumBit(x, y, c) &&
      Eval(env, Sub(AdderNamed(n, name).1)) == CarryBit(x, y, c)
  {
    var x, y := Wire(name("x", n)), Wire(name("y", n));
    if n == 0 {
      EvalNormalized(env, Gate(name("z", n), x, y, Day24a.Xor));
      EvalNormalized(env, Gate(name("c", n), x, y, Day24a.And));
    } else {
      var carry := AdderNamed(n - 1, name).1;
      var partial := Gate(name("partial", n), x, y, Day24a.Xor);
      var result := Gate(name("z", n), Sub(Normalized(partial)), Sub(carry), Day24a.Xor);
      var carried := Gate(name("partial", n), Sub(Normalized(partial)), Sub(carry), Day24a.And);
      var both := Gate(name("partial", n), x, y, Day24a.And);
      var out := Gate(name("c", n), Sub(Normalized(carried)), Sub(Normalized(both)), Day24a.Or);
      assert AdderNamed(n, name) == (Normalized(result), Normalized(out));
      EvalNormalized(env, partial);
      EvalNormalized(env, result);
      EvalNormalized(env, carried);
      EvalNormalized(env, both);
      EvalNormalized(env, out);
    }
  }

  /** The sum of the lowest `n + 1` bits of the numbers does not fit in
      `n + 1` bits. */
  predicate Overflows(env: string -> bool, name: (string, nat) -> string, n: nat)
  {
    Sum(env, name, n + 1) >= Pow(2, n + 1)
  }

  /** Bit `n` of the sum and its overflow, from the two bits at `n` and
      the overflow of the bits below. */
  lemma SumCarry(env: string -> bool, name: (string, nat) -> string, n: nat)
    ensures var x, y := env(name("x", n)), env(name("y", n));
      var c := n > 0 && Overflows(env, name, n - 1);
      Day24a.Bit(Sum(env, name, n + 1), n) == SumBit(x, y, c) &&
      Overflows(env, name, n) == CarryBit(x, y, c)
  {
    SumStep(env, name, n);
    if n == 0 {
      assert Sum(env, name, 0) == 0;
    } else {
      SumStep(env, name, n - 1);
      assert Overflows(env, name, n - 1) == (Sum(env, name, n) >= Pow(2, n));
    }
    RippleStep(Sum(env, name, n), Sum(env, name, n + 1), n, n > 0 && Sum(env, name, n) >= Pow(2, n),
               env(name("x", n)), env(name("y", n)));
  }

  /** The carries of a ripple-carry adder, bit by bit. */
  function RippleCarry(env: string -> bool, name: (string, nat) -> string, n: nat): bool
  {
    CarryBit(env(name("x", n)), env(name("y", n)), n > 0 && RippleCarry(env, name, n - 1))
  }

  /** The carry tree of bit 0 computes the carry out of bit 0. */
  lemma CarryTreeFirst(env: string -> bool, name: (string, nat) -> string)
    ensures Eval(env, Sub(AdderNamed(0, name).1)) == RippleCarry(env, name, 0)
  {
    AdderGates(env, name, 0);
  }

  /** One step of the carry chain: if the carry tree of bit `m` computes
      its ripple carry, so does the carry tree of bit `m + 1`. */
  lemma CarryTreeStep(env: string -> bool, name: (string, nat) -> string, m: nat)
    requires Eval(env, Sub(AdderNamed(m, name).1)) == RippleCarry(env, name, m)
    ensures Eval(env, Sub(AdderNamed(m + 1, name).1)) == RippleCarry(env, name, m + 1)
  {
    AdderGates(env, name, m + 1);
    var x, y := env(name("x", m + 1)), env(name("y", m + 1));
    calc {
      Eval(env, Sub(AdderNamed(m + 1, name).1));
      CarryBit(x, y, Eval(env, Sub(AdderNamed(m, name).1)));
      CarryBit(x, y, RippleCarry(env, name, m));
      RippleCarry(env, name, m + 1);
    }
  }

  /** The carry tree of bit `n` computes the ripple carry out of bit `n`. */
  lemma {:induction false} CarryTree(env: string -> bool, name: (string, nat) -> string, n: nat)
    ensures Eval(env, Sub(AdderNamed(n, name).1)) == RippleCarry(env, name, n)
  {
    if n == 0 {
      CarryTreeFirst(env, name);
    } else {
      CarryTree(env, name, n - 1);
      CarryTreeStep(env, name, n - 1);
    }
  }

  /** The ripple carry out of bit `n` is the overflow of the sum of the
      numbers on the lowest `n + 1` x- and y-wires. */
  lemma {:induction false} RippleOverflows(env: string -> bool, name: (string, nat) -> string, n: nat)
    ensures RippleCarry(env, name, n) == Overflows(env, name, n)
  {
    SumCarry(env, name, n);
    if n > 0 {
      RippleOverflows(env, name, n - 1);
    }
  }

  /** The adder is correct whatever the naming: the tree of bit `n`
      computes bit `n` of the sum of the numbers on the x- and y-wires, and
      its carry tree whether that sum overflows bit `n`. */
  lemma AdderNamedAdds(env: string -> bool, name: (string, nat) -> string, n: nat)
    ensures Eval(env, Sub(AdderNamed(n, name).0)) == Day24a.Bit(Sum(env, name, n + 1), n)
    ensures Eval(env, Sub(AdderNamed(n, name).1)) == Overflows(env, name, n)
  {
    AdderGates(env, name, n);
    SumCarry(env, name, n);
    CarryTree(env, name, n);
    RippleOverflows(env, name, n);
    if n > 0 {
      CarryTree(env, name, n - 1);
      RippleOverflows(env, name, n - 1);
    }
  }

  /** `new_adder` builds a correct adder: its trees are normalized, the
      z-tree of bit `n` computes bit `n` of x + y and the carry tree
      whether x + y, taken over bits `0..n`, overflows them. */
  lemma AdderAdds(env: string -> bool, n: nat)
    ensures Normal(Sub(Adder(n).0)) && Normal(Sub(Adder(n).1))
    ensures Eval(env, Sub(Adder(n).0)) == Day24a.Bit(Sum(env, Named, n + 1), n)
    ensures Eval(env, Sub(Adder(n).1)) == Overflows(env, Named, n)
  {
    AdderNormal(n, Named);
    AdderNamedAdds(env, Named, n);
  }

  // ---------------------------------------------------------------- names

  /** The gate names of a tree, each gate before the gates of its inputs,
      first inputs before second ones. */
  function Preorder(g: Gate): seq<string>
  {
    [g.name]
    + (if g.input1.Sub? then Preorder(g.input1.gate) else [])
    + (if g.input2.Sub? then Preorder(g.input2.gate) else [])
  }

  /** `Gate::get_all_names`: pushes the gate names of the tree onto
      `results`. */
  method GetAllNames(g: Gate, results: seq<string>) returns (results': seq<string>)
    ensures results' == results + Preorder(g)
  {
    ghost var left := if g.input1.Sub? then Preorder(g.input1.gate) else [];
    ghost var right := if g.input2.Sub? then Preorder(g.input2.gate) else [];
    results' := results + [g.name];
    if g.input1.Sub? {
      results' := GetAllNames(g.input1.gate, results');
    }
    assert results' == results + [g.name] + left;
    if g.input2.Sub? {
      results' := GetAllNames(g.input2.gate, results');
    }
    assert Preorder(g) == [g.name] + left + right;
    Regroup(results, [g.name], left, right);
  }

  lemma Regroup<T>(a: seq<T>, b: seq<T>, c: seq<T>, d: seq<T>)
    ensures a + b + c + d == a + (b + c + d)
  {
  }

  /** The names listed are exactly those of the gates in the tree. */
  lemma {:induction false} PreorderNames(g: Gate, n: string)
    ensures n in Preorder(g) <==> exists h :: Within(Sub(h), Sub(g)) && h.name == n
  {
    if g.input1.Sub? {
      PreorderNames(g.input1.gate, n);
    }
    if g.input2.Sub? {
      PreorderNames(g.input2.gate, n);
    }
    if n in Preorder(g) {
      if n == g.name {
        assert Within(Sub(g), Sub(g));
      } else if g.input1.Sub? && n in Preorder(g.input1.gate) {
        var h :| Within(Sub(h), Sub(g.input1.gate)) && h.name == n;
        assert Within(Sub(h), Sub(g));
      } else {
        var h :| Within(Sub(h), Sub(g.input2.gate)) && h.name == n;
        assert Within(Sub(h), Sub(g));
      }
    }
    if exists h :: Within(Sub(h), Sub(g)) && h.name == n {
      var h :| Within(Sub(h), Sub(g)) && h.name == n;
      if h != g {
        if Within(Sub(h), g.input1) {
          assert g.input1.Sub?;
        } else {
          assert Within(Sub(h), g.input2);
          assert g.input2.Sub?;
        }
      }
    }
  }
}
