/** The three-bit computer: registers A, B and C, a program of numbers
    0..7 read as opcode and operand pairs, and an output of digits. The
    answer is the output joined with commas. */
module Day17a {
  import opened Common
  import opened Text

  /** The computer as a value: registers, program, instruction pointer and
      the halt flag. */
  datatype Machine = Machine(a: nat, b: nat, c: nat, program: seq<nat>, ip: nat, halted: bool)

  /** Registers fit `u64`, program cells fit `u8`, and a halted machine has
      run off the end of its program. */
  predicate Valid(m: Machine)
  {
    m.a < U64_LIMIT && m.b < U64_LIMIT && m.c < U64_LIMIT &&
    (forall i :: 0 <= i < |m.program| ==> m.program[i] < 256) &&
    (m.halted ==> m.ip >= |m.program|)
  }

  lemma PowTwo64()
    ensures Pow(2, 64) == U64_LIMIT
  {
    assert Pow(2, 8) == 256 by {
      assert Pow(2, 4) == 16;
      PowAdd(2, 4, 4);
    }
    PowAdd(2, 8, 8);
    PowAdd(2, 16, 16);
    PowAdd(2, 32, 32);
  }

  lemma DivAtMost(a: nat, d: nat)
    requires d > 0
    ensures a / d <= a
  {
    var q := a / d;
    assert q * d <= a;
    if q > 0 {
      MulAtLeast(d, q);
    }
  }

  /** `read`: the cell under the instruction pointer, which moves on past
      it; at or past the end the machine halts and nothing is read. */
  function Fetch(m: Machine): (r: (Machine, Option<nat>))
    ensures r.1.Some? <==> m.ip < |m.program|
    ensures r.1.Some? ==> r.1.value == m.program[m.ip] && r.0 == m.(ip := m.ip + 1)
    ensures r.1.None? ==> r.0 == m.(halted := true)
  {
    if m.ip >= |m.program| then (m.(halted := true), None)
    else (m.(ip := m.ip + 1), Some(m.program[m.ip]))
  }

  /** A combo operand: 0 to 3 stand for themselves, 4, 5 and 6 for the
      registers, anything else is an error. */
  function Combo(m: Machine, operand: nat): (r: Result<nat>)
    ensures r.Ok? <==> operand <= 6
    ensures operand <= 3 ==> r == Ok(operand)
  {
    match operand
    case 4 => Ok(m.a)
    case 5 => Ok(m.b)
    case 6 => Ok(m.c)
    case _ => if operand <= 3 then Ok(operand) else Err("invalid combo data")
  }

  /** `read_combo_data`: read an operand and take its combo value. */
  function FetchCombo(m: Machine): (r: Result<(Machine, Option<nat>)>)
    ensures r.Ok? <==> m.ip >= |m.program| || m.program[m.ip] <= 6
    ensures r.Ok? ==> r.value.0 == Fetch(m).0
    ensures r.Ok? && m.ip < |m.program| ==> r.value.1 == Some(Combo(m, m.program[m.ip]).value)
    ensures r.Ok? && m.ip >= |m.program| ==> r.value.1 == None
  {
    var (next, data) := Fetch(m);
    if data.None? then Ok((next, None))
    else
      var value :- Combo(next, data.value);
      Ok((next, Some(value)))
  }

  /** `data as u32`. */
  function AsU32(n: nat): nat
  {
    n % U32_LIMIT
  }

  /** `2u64.pow(data as u32)` stays below 2^64. */
  predicate ShiftFits(data: nat)
  {
    AsU32(data) < 64
  }

  /** `a / 2u64.pow(data as u32)`. */
  function Divided(a: nat, data: nat): (r: nat)
    requires ShiftFits(data)
    ensures r <= a
  {
    var d := Pow(2, AsU32(data));
    PowPositive(2, AsU32(data));
    DivAtMost(a, d);
    a / d
  }

  /** The next instruction divides by a power of two that does not fit
      `u64`, where `2u64.pow` panics. */
  predicate Overflows(m: Machine)
  {
    m.ip + 1 < |m.program| && m.program[m.ip] in {0, 6, 7} &&
    Combo(m, m.program[m.ip + 1]).Ok? && !ShiftFits(Combo(m, m.program[m.ip + 1]).value)
  }

  /** `step`: one instruction, giving the new machine and what it outputs. */
  function Stepped(m: Machine): Result<(Machine, Option<nat>)>
    requires !Overflows(m)
  {
    var (m1, op) := Fetch(m);
    if op.None? then Ok((m1, None))
    else if op.value == 1 then
      var (m2, data) := Fetch(m1);
      Ok((if data.Some? then m2.(b := Xor(m2.b, data.value)) else m2, None))
    else if op.value == 3 then
      var (m2, data) := Fetch(m1);
      Ok((if data.Some? && m2.a != 0 then m2.(ip := data.value) else m2, None))
    else if op.value == 4 then
      var m2 := Fetch(m1).0;
      Ok((m2.(b := Xor(m2.b, m2.c)), None))
    else if op.value in {0, 2, 5, 6, 7} then
      var read :- FetchCombo(m1);
      var (m2, data) := read;
      if data.None? then Ok((m2, None))
      else if op.value == 0 then Ok((m2.(a := Divided(m2.a, data.value)), None))
      else if op.value == 2 then Ok((m2.(b := data.value % 8), None))
      else if op.value == 5 then Ok((m2, Some(data.value % 8)))
      else if op.value == 6 then Ok((m2.(b := Divided(m2.a, data.value)), None))
      else Ok((m2.(c := Divided(m2.a, data.value)), None))
    else Err("invalid instruction")
  }

  /** A step fails exactly on an opcode above 7, or on a combo operand of
      7 or more behind adv, bst, out, bdv or cdv. */
  lemma StepErrors(m: Machine)
    requires !Overflows(m)
    ensures Stepped(m).Err? <==>
      m.ip < |m.program| &&
      (m.program[m.ip] > 7 ||
       (m.program[m.ip] in {0, 2, 5, 6, 7} && m.ip + 1 < |m.program| && m.program[m.ip + 1] > 6))
  {
  }

  /** Where a step leaves the instruction pointer: two cells on, or the
      jump target when jnz sees a non-zero A; a machine that runs out of
      cells halts, and only then. */
  lemma StepControl(m: Machine)
    requires !Overflows(m) && Stepped(m).Ok?
    ensures var n := Stepped(m).value.0;
      n.program == m.program &&
      (n.halted <==> m.halted || m.ip + 1 >= |m.program|) &&
      n.ip == (if m.ip >= |m.program| then m.ip
               else if m.ip + 1 == |m.program| then m.ip + 1
               else if m.program[m.ip] == 3 && m.a != 0 then m.program[m.ip + 1]
               else m.ip + 2)
  {
  }

  /** A whole instruction, opcode and operand, as the puzzle's table gives
      it: adv, bdv and cdv divide A by two to the combo operand into A, B
      or C; bxl and bxc XOR into B; bst stores the combo operand mod 8;
      out emits it mod 8. */
  lemma StepRegisters(m: Machine)
    requires !Overflows(m) && Stepped(m).Ok? && m.ip + 1 < |m.program|
    ensures var (n, out) := Stepped(m).value;
      var op, x := m.program[m.ip], m.program[m.ip + 1];
      (op in {0, 2, 5, 6, 7} ==> Combo(m, x).Ok?) &&
      n.a == (if op == 0 then Divided(m.a, Combo(m, x).value) else m.a) &&
      n.b == (if op == 1 then Xor(m.b, x)
              else if op == 2 then Combo(m, x).value % 8
              else if op == 4 then Xor(m.b, m.c)
              else if op == 6 then Divided(m.a, Combo(m, x).value)
              else m.b) &&
      n.c == (if op == 7 then Divided(m.a, Combo(m, x).value) else m.c) &&
      out == (if op == 5 then Some(Combo(m, x).value % 8) else None)
  {
  }

  /** An opcode in the last cell has no operand: the machine halts with
      no other effect, except bxc, which still XORs C into B. */
  lemma MissingOperand(m: Machine)
    requires m.ip + 1 == |m.program| && m.program[m.ip] <= 7
    ensures !Overflows(m)
    ensures Stepped(m) == Ok((m.(ip := |m.program|, halted := true,
                                  b := if m.program[m.ip] == 4 then Xor(m.b, m.c) else m.b), None))
  {
  }

  /** A halted machine steps to itself and outputs nothing. */
  lemma HaltedStays(m: Machine)
    requires Valid(m) && m.halted
    ensures !Overflows(m) && Stepped(m) == Ok((m, None))
  {
  }

  /** A step keeps the registers within `u64` (XOR of two `u64` values is
      one) and every output is a digit 0..7. */
  lemma StepValid(m: Machine)
    requires Valid(m) && !Overflows(m) && Stepped(m).Ok?
    ensures Valid(Stepped(m).value.0)
    ensures Stepped(m).value.1.Some? ==> Stepped(m).value.1.value < 8
  {
    PowTwo64();
    if m.ip + 1 < |m.program| {
      var x := m.program[m.ip + 1];
      XorBelow(m.b, x, 64);
      XorBelow(m.b, m.c, 64);
      StepRegisters(m);
    } else {
      XorBelow(m.b, m.c, 64);
    }
  }

  /** The run loop of `do_it`: step until the machine halts, collecting the
      outputs. The run is cut off after `fuel` steps, and a step whose
      `2u64.pow` overflows ends it with an error. */
  function Outputs(m: Machine, fuel: nat): Result<seq<nat>>
    decreases fuel
  {
    if m.halted then Ok([])
    else if fuel == 0 then Err("no halt within the step bound")
    else if Overflows(m) then Err("attempt to multiply with overflow")
    else
      var stepped :- Stepped(m);
      var rest :- Outputs(stepped.0, fuel - 1);
      Ok(Emitted(stepped.1) + rest)
  }

  /** Every output of a run is a digit 0..7. */
  lemma {:induction false} OutputsDigits(m: Machine, fuel: nat)
    requires Valid(m) && Outputs(m, fuel).Ok?
    ensures forall i :: 0 <= i < |Outputs(m, fuel).value| ==> Outputs(m, fuel).value[i] < 8
    decreases fuel
  {
    if !m.halted {
      StepValid(m);
      OutputsDigits(Stepped(m).value.0, fuel - 1);
    }
  }

  /** The step bound does not change an answer: a run that halts within
      `fuel` steps gives the same outputs under any larger bound. */
  lemma {:induction false} OutputsFuel(m: Machine, fuel: nat, more: nat)
    requires fuel <= more && Outputs(m, fuel).Ok?
    ensures Outputs(m, more) == Outputs(m, fuel)
    decreases fuel
  {
    if !m.halted {
      OutputsFuel(Stepped(m).value.0, fuel - 1, more - 1);
    }
  }

  /** `outputs` in front of a run's result. */
  function Prepend(outputs: seq<nat>, r: Result<seq<nat>>): Result<seq<nat>>
  {
    match r
    case Ok(rest) => Ok(outputs + rest)
    case Err(e) => Err(e)
  }

  /** What a step emits, as a sequence. */
  function Emitted(out: Option<nat>): seq<nat>
  {
    if out.Some? then [out.value] else []
  }

  /** A run resumed after `before` was emitted: it stops, or emits the
      next step's output and goes on. */
  lemma Resume(m: Machine, fuel: nat, before: seq<nat>)
    ensures Prepend(before, Outputs(m, fuel)) ==
      if m.halted then Ok(before)
      else if fuel == 0 then Err("no halt within the step bound")
      else if Overflows(m) then Err("attempt to multiply with overflow")
      else if Stepped(m).Err? then Err(Stepped(m).msg)
      else Prepend(before + Emitted(Stepped(m).value.1), Outputs(Stepped(m).value.0, fuel - 1))
  {
    if m.halted {
      assert before + [] == before;
    } else if fuel > 0 && !Overflows(m) && Stepped(m).Ok? {
      var (n, out) := Stepped(m).value;
      if Outputs(n, fuel - 1).Ok? {
        assert before + (Emitted(out) + Outputs(n, fuel - 1).value) == before + Emitted(out) + Outputs(n, fuel - 1).value;
      }
    }
  }

  /** The run from `start` is `output` followed by the run from `m`. */
  ghost predicate Resumes(start: Machine, fuel: nat, output: seq<nat>, m: Machine, left: nat)
  {
    Outputs(start, fuel) == Prepend(output, Outputs(m, left))
  }

  /** The VM of the source: registers, program, instruction pointer and
      halt flag, updated in place. */
  class VM {
    var a: nat
    var b: nat
    var c: nat
    const program: seq<nat>
    var ip: nat
    var halted: bool

    /** `VM::new`: the pointer at the first cell, not halted. */
    constructor (a: nat, b: nat, c: nat, program: seq<nat>)
      ensures Snapshot() == Machine(a, b, c, program, 0, false)
    {
      this.a, this.b, this.c := a, b, c;
      this.program := program;
      ip, halted := 0, false;
    }

    function Snapshot(): Machine
      reads this
    {
      Machine(a, b, c, program, ip, halted)
    }

    /** `read`. */
    method Read() returns (r: Option<nat>)
      modifies this
      ensures (Snapshot(), r) == Fetch(old(Snapshot()))
    {
      if ip >= |program| {
        halted := true;
        return None;
      }
      r := Some(program[ip]);
      ip := ip + 1;
    }

    /** `read_combo_data`. */
    method ReadCombo() returns (r: Result<Option<nat>>)
      modifies this
      ensures r.Ok? <==> FetchCombo(old(Snapshot())).Ok?
      ensures r.Ok? ==> (Snapshot(), r.value) == FetchCombo(old(Snapshot())).value
      ensures r.Err? ==> FetchCombo(old(Snapshot())) == Err(r.msg)
    {
      var data := Read();
      if data.None? {
        return Ok(None);
      }
      match data.value
      case 4 => return Ok(Some(a));
      case 5 => return Ok(Some(b));
      case 6 => return Ok(Some(c));
      case _ =>
        if data.value <= 3 {
          return Ok(Some(data.value));
        }
        return Err("invalid combo data");
    }

    /** `step`: one instruction; the output, if any, is returned. */
    method Step() returns (r: Result<Option<nat>>)
      requires !Overflows(Snapshot())
      modifies this
      ensures r.Ok? <==> Stepped(old(Snapshot())).Ok?
      ensures r.Ok? ==> (Snapshot(), r.value) == Stepped(old(Snapshot())).value
      ensures r.Err? ==> Stepped(old(Snapshot())) == Err(r.msg)
    {
      ghost var m := Snapshot();
      var instruction := Read();
      if instruction.None? {
        return Ok(None);
      }
      var op := instruction.value;
      if op == 1 {
        var data := Read();
        if data.Some? {
          b := Xor(b, data.value);
        }
        return Ok(None);
      } else if op == 3 {
        var data := Read();
        if data.Some? && a != 0 {
          ip := data.value;
        }
        return Ok(None);
      } else if op == 4 {
        var _ := Read();
        b := Xor(b, c);
        return Ok(None);
      } else if op in {0, 2, 5, 6, 7} {
        var data :- ReadCombo();
        if data.None? {
          return Ok(None);
        }
        assert data.value == Combo(m, m.program[m.ip + 1]).value;
        if op == 0 {
          a := Divided(a, data.value);
          return Ok(None);
        } else if op == 2 {
          b := data.value % 8;
          return Ok(None);
        } else if op == 5 {
          return Ok(Some(data.value % 8));
        } else if op == 6 {
          b := Divided(a, data.value);
          return Ok(None);
        } else {
          c := Divided(a, data.value);
          return Ok(None);
        }
      }
      return Err("invalid instruction");
    }
  }

  /** The `while !vm.is_halted` loop of `do_it`, cut off after `fuel`
      steps. */
  method Run(vm: VM, fuel: nat) returns (r: Result<seq<nat>>)
    modifies vm
    ensures r == Outputs(old(vm.Snapshot()), fuel)
  {
    ghost var start := vm.Snapshot();
    var output: seq<nat> := [];
    var left := fuel;
    Resume(start, fuel, []);
    assert Prepend([], Outputs(start, fuel)) == Outputs(start, fuel) by {
      if Outputs(start, fuel).Ok? {
        assert [] + Outputs(start, fuel).value == Outputs(start, fuel).value;
      }
    }
    while !vm.halted
      invariant Resumes(start, fuel, output, vm.Snapshot(), left)
      decreases left
    {
      Resume(vm.Snapshot(), left, output);
      if left == 0 {
        return Err("no halt within the step bound");
      }
      if Overflows(vm.Snapshot()) {
        return Err("attempt to multiply with overflow");
      }
      var stepped;
      stepped, output := RunStep(vm, start, fuel, output, left);
      if stepped.Err? {
        return Err(stepped.msg);
      }
      left := left - 1;
    }
    Resume(vm.Snapshot(), left, output);
    return Ok(output);
  }

  /** One turn of the run loop: a step whose output is pushed. */
  method RunStep(vm: VM, ghost start: Machine, ghost fuel: nat, output: seq<nat>, left: nat)
    returns (r: Result<()>, output': seq<nat>)
    requires Resumes(start, fuel, output, vm.Snapshot(), left)
    requires !vm.halted && left > 0 && !Overflows(vm.Snapshot())
    modifies vm
    ensures r.Err? ==> Outputs(start, fuel) == Err(r.msg)
    ensures r.Ok? ==> Resumes(start, fuel, output', vm.Snapshot(), left - 1)
  {
    ghost var m := vm.Snapshot();
    Resume(m, left, output);
    output' := output;
    var out := vm.Step();
    if out.Err? {
      return Err(out.msg), output';
    }
    if out.value.Some? {
      output' := output + [out.value.value];
    }
    assert output' == output + Emitted(Stepped(m).value.1);
    return Ok(()), output';
  }

  /** The regular expression `^<prefix>(<body>+)$`, its body characters
      given by `ok`: the captured text. */
  function Capture(line: string, prefix: string, ok: char -> bool): (r: Result<string>)
    ensures r.Ok? <==> StartsWith(line, prefix) && |line| > |prefix| && forall i :: |prefix| <= i < |line| ==> ok(line[i])
    ensures r.Ok? ==> line == prefix + r.value
  {
    if !StartsWith(line, prefix) || |line| == |prefix| then Err("regex failed")
    else if exists i :: |prefix| <= i < |line| && !ok(line[i]) then Err("regex failed")
    else
      StartsWithSplit(line, prefix);
      Ok(line[|prefix|..])
  }

  predicate ProgramChar(c: char) { IsDigit(c) || c == ',' }

  /** The four lines as the source reads them: three registers, then a
      comma-separated program of `u8` numbers. The four patterns are
      matched before any number is parsed. */
  function ReadInput(lines: seq<string>): (r: Result<Machine>)
    ensures r.Ok? ==> Valid(r.value) && r.value.ip == 0 && !r.value.halted
  {
    var kept := NonBlankLines(lines);
    if |kept| != 4 then Err("expected exactly 4 lines")
    else
      var ra :- Capture(kept[0], "Register A: ", IsDigit);
      var rb :- Capture(kept[1], "Register B: ", IsDigit);
      var rc :- Capture(kept[2], "Register C: ", IsDigit);
      var text :- Capture(kept[3], "Program: ", ProgramChar);
      var a :- ParseUnsigned(ra, U64_LIMIT);
      var b :- ParseUnsigned(rb, U64_LIMIT);
      var c :- ParseUnsigned(rc, U64_LIMIT);
      var program :- ParseUnsignedAll(SplitOn(text, ','), 256);
      Ok(Machine(a, b, c, program, 0, false))
  }

  /** The output joined with commas, as `join(",")` renders it. */
  function Render(outputs: seq<nat>): string
  {
    if outputs == [] then "" else Join(seq(|outputs|, i requires 0 <= i < |outputs| => Decimal(outputs[i])), ',')
  }

  /** The rendering reads back as a program: splitting on commas and
      parsing each piece gives the numbers again. */
  lemma RenderParses(outputs: seq<nat>)
    requires outputs != [] && forall i :: 0 <= i < |outputs| ==> outputs[i] < 256
    ensures ParseUnsignedAll(SplitOn(Render(outputs), ','), 256) == Ok(outputs)
  {
    var pieces := seq(|outputs|, i requires 0 <= i < |outputs| => Decimal(outputs[i]));
    forall i | 0 <= i < |pieces| ensures ',' !in pieces[i] && ParseUnsigned(pieces[i], 256) == Ok(outputs[i]) {
      ParseDecimal(outputs[i], 256);
    }
    SplitOnJoin(pieces, ',');
    var parsed := ParseUnsignedAll(pieces, 256);
    assert parsed.Ok?;
    assert parsed.value == outputs;
  }

  /** `do_it`: the outputs of the program, joined with commas. */
  function Answer(lines: seq<string>, fuel: nat): Result<string>
  {
    var m :- ReadInput(lines);
    var outputs :- Outputs(m, fuel);
    Ok(Render(outputs))
  }

  /** The answer is digits 0..7 separated by commas. */
  lemma AnswerDigits(lines: seq<string>, fuel: nat)
    requires Answer(lines, fuel).Ok?
    ensures var s := Answer(lines, fuel).value;
      forall i :: 0 <= i < |s| ==> if i % 2 == 0 then '0' <= s[i] <= '7' else s[i] == ','
  {
    var m := ReadInput(lines).value;
    OutputsDigits(m, fuel);
    RenderDigits(Outputs(m, fuel).value);
  }

  /** The rendering of digits alternates digit and comma. */
  lemma {:induction false} RenderDigits(outputs: seq<nat>)
    requires forall i :: 0 <= i < |outputs| ==> outputs[i] < 8
    ensures var s := Render(outputs);
      |s| == (if outputs == [] then 0 else 2 * |outputs| - 1) &&
      forall i :: 0 <= i < |s| ==> if i % 2 == 0 then '0' <= s[i] <= '7' else s[i] == ','
  {
    if |outputs| > 1 {
      var rest := outputs[1..];
      RenderDigits(rest);
      RenderCons(outputs);
      var s := Render(outputs);
      assert s == [DigitChar(outputs[0])] + [','] + Render(rest);
      forall i | 2 <= i < |s| ensures s[i] == Render(rest)[i - 2] {
      }
    }
  }

  /** The first number, a comma, then the rest. */
  lemma RenderCons(outputs: seq<nat>)
    requires |outputs| > 1
    ensures Render(outputs) == Decimal(outputs[0]) + [','] + Render(outputs[1..])
  {
    var rest := outputs[1..];
    var pieces := seq(|outputs|, i requires 0 <= i < |outputs| => Decimal(outputs[i]));
    assert pieces[1..] == seq(|rest|, i requires 0 <= i < |rest| => Decimal(rest[i]));
  }

  /** `do_it`. */
  method Solve(lines: seq<string>, fuel: nat) returns (r: Result<string>)
    ensures r == Answer(lines, fuel)
  {
    var m := ReadInput(lines);
    if m.Err? {
      return Err(m.msg);
    }
    var vm := new VM(m.value.a, m.value.b, m.value.c, m.value.program);
    var outputs := Run(vm, fuel);
    if outputs.Err? {
      return Err(outputs.msg);
    }
    return Ok(Render(outputs.value));
  }
}
