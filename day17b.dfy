/** The three-bit computer, part two: find the smallest value of register
    A for which the program outputs a copy of itself. Instructions behave
    as in part one; a step also reports whether the output closure asked
    to go on. */
module Day17b {
  import opened Common
  import opened Text
  import Day17a

  /** `step` of part two: the instruction of part one, and the closure's
      answer for an output (true for every other instruction, and when
      the machine is halted). */
  function Stepped(m: Day17a.Machine, keep: nat -> bool): (r: Result<(Day17a.Machine, Option<nat>, bool)>)
    requires !Day17a.Overflows(m)
    ensures r.Ok? <==> Day17a.Stepped(m).Ok?
    ensures r.Ok? ==> (r.value.0, r.value.1) == Day17a.Stepped(m).value
  {
    var stepped :- Day17a.Stepped(m);
    Ok((stepped.0, stepped.1, if stepped.1.Some? then keep(stepped.1.value) else true))
  }

  /** A step goes on unless it emits a value the closure refuses. */
  lemma StepAnswer(m: Day17a.Machine, keep: nat -> bool)
    requires !Day17a.Overflows(m) && Stepped(m, keep).Ok?
    ensures !Stepped(m, keep).value.2 <==> Stepped(m, keep).value.1.Some? && !keep(Stepped(m, keep).value.1.value)
    ensures m.ip + 1 < |m.program| && m.program[m.ip] != 5 ==> Stepped(m, keep).value.2
  {
    if m.ip + 1 < |m.program| {
      Day17a.StepRegisters(m);
    }
  }

  /** The inner loop of `do_it`: step until the machine halts or a step
      answers false, collecting every output (the refused one included).
      The run is cut off after `fuel` steps. */
  function Collected(m: Day17a.Machine, keep: nat -> bool, fuel: nat): Result<seq<nat>>
    decreases fuel
  {
    if m.halted then Ok([])
    else if fuel == 0 then Err("no halt within the step bound")
    else if Day17a.Overflows(m) then Err("attempt to multiply with overflow")
    else
      var stepped :- Stepped(m, keep);
      if !stepped.2 then Ok(Day17a.Emitted(stepped.1))
      else
        var rest :- Collected(stepped.0, keep, fuel - 1);
        Ok(Day17a.Emitted(stepped.1) + rest)
  }

  /** With a closure that always answers true, as the source's does, the
      loop is the run of part one. */
  lemma {:induction false} CollectedAll(m: Day17a.Machine, fuel: nat)
    ensures Collected(m, Always, fuel) == Day17a.Outputs(m, fuel)
    decreases fuel
  {
    if !m.halted && fuel > 0 && !Day17a.Overflows(m) && Day17a.Stepped(m).Ok? {
      CollectedAll(Day17a.Stepped(m).value.0, fuel - 1);
    }
  }

  /** A run resumed after `before` was collected. */
  lemma Resume(m: Day17a.Machine, keep: nat -> bool, fuel: nat, before: seq<nat>)
    ensures Day17a.Prepend(before, Collected(m, keep, fuel)) ==
      if m.halted then Ok(before)
      else if fuel == 0 then Err("no halt within the step bound")
      else if Day17a.Overflows(m) then Err("attempt to multiply with overflow")
      else if Stepped(m, keep).Err? then Err(Stepped(m, keep).msg)
      else if !Stepped(m, keep).value.2 then Ok(before + Day17a.Emitted(Stepped(m, keep).value.1))
      else Day17a.Prepend(before + Day17a.Emitted(Stepped(m, keep).value.1), Collected(Stepped(m, keep).value.0, keep, fuel - 1))
  {
    if m.halted {
      assert before + [] == before;
    } else if fuel > 0 && !Day17a.Overflows(m) && Stepped(m, keep).Ok? && Stepped(m, keep).value.2 {
      var (n, out, _) := Stepped(m, keep).value;
      var now := Day17a.Emitted(out);
      if Collected(n, keep, fuel - 1).Ok? {
        assert before + (now + Collected(n, keep, fuel - 1).value) == before + now + Collected(n, keep, fuel - 1).value;
      }
    }
  }

  ghost predicate Resumes(start: Day17a.Machine, keep: nat -> bool, fuel: nat, output: seq<nat>, m: Day17a.Machine, left: nat)
  {
    Collected(start, keep, fuel) == Day17a.Prepend(output, Collected(m, keep, left))
  }

  /** `step` with the output closure: the instruction, the output, and
      whether to go on. */
  method Step(vm: Day17a.VM, keep: nat -> bool) returns (r: Result<(Option<nat>, bool)>)
    requires !Day17a.Overflows(vm.Snapshot())
    modifies vm
    ensures r.Ok? <==> Stepped(old(vm.Snapshot()), keep).Ok?
    ensures r.Ok? ==> (vm.Snapshot(), r.value.0, r.value.1) == Stepped(old(vm.Snapshot()), keep).value
    ensures r.Err? ==> Stepped(old(vm.Snapshot()), keep) == Err(r.msg)
  {
    var out :- vm.Step();
    if out.Some? {
      return Ok((out, keep(out.value)));
    }
    return Ok((out, true));
  }

  /** One turn of the inner loop: a step whose output is pushed, and
      whether the loop breaks. */
  method RunStep(vm: Day17a.VM, keep: nat -> bool, ghost start: Day17a.Machine, ghost fuel: nat, output: seq<nat>, left: nat)
    returns (r: Result<bool>, output': seq<nat>)
    requires Resumes(start, keep, fuel, output, vm.Snapshot(), left)
    requires !vm.halted && left > 0 && !Day17a.Overflows(vm.Snapshot())
    modifies vm
    ensures r.Err? ==> Collected(start, keep, fuel) == Err(r.msg)
    ensures r.Ok? && !r.value ==> Collected(start, keep, fuel) == Ok(output')
    ensures r.Ok? && r.value ==> Resumes(start, keep, fuel, output', vm.Snapshot(), left - 1)
  {
    ghost var m := vm.Snapshot();
    Resume(m, keep, left, output);
    output' := output;
    var stepped := Step(vm, keep);
    if stepped.Err? {
      return Err(stepped.msg), output';
    }
    var (out, go) := stepped.value;
    if out.Some? {
      output' := output + [out.value];
    }
    assert output' == output + Day17a.Emitted(Stepped(m, keep).value.1);
    return Ok(go), output';
  }

  /** The inner `while !vm.is_halted` loop with its `break`, cut off after
      `fuel` steps. */
  method Run(vm: Day17a.VM, keep: nat -> bool, fuel: nat) returns (r: Result<seq<nat>>)
    modifies vm
    ensures r == Collected(old(vm.Snapshot()), keep, fuel)
  {
    ghost var start := vm.Snapshot();
    var output: seq<nat> := [];
    var left := fuel;
    Resume(start, keep, fuel, []);
    assert Day17a.Prepend([], Collected(start, keep, fuel)) == Collected(start, keep, fuel) by {
      if Collected(start, keep, fuel).Ok? {
        assert [] + Collected(start, keep, fuel).value == Collected(start, keep, fuel).value;
      }
    }
    while !vm.halted
      invariant Resumes(start, keep, fuel, output, vm.Snapshot(), left)
      decreases left
    {
      Resume(vm.Snapshot(), keep, left, output);
      if left == 0 {
        return Err("no halt within the step bound");
      }
      if Day17a.Overflows(vm.Snapshot()) {
        return Err("attempt to multiply with overflow");
      }
      var go;
      go, output := RunStep(vm, keep, start, fuel, output, left);
      if go.Err? {
        return Err(go.msg);
      }
      if !go.value {
        return Ok(output);
      }
      left := left - 1;
    }
    Resume(vm.Snapshot(), keep, left, output);
    return Ok(output);
  }

  /** The output closure of `do_it`: it pushes the value and always
      answers true. */
  function Always(value: nat): bool
  {
    true
  }

  /** The outputs of the program with register A replaced by `a`, run on
      a fresh copy of the machine. */
  function Trial(m: Day17a.Machine, a: nat, fuel: nat): Result<seq<nat>>
  {
    Collected(m.(a := a), Always, fuel)
  }

  /** The search loop of `do_it`: the first `a` from `from` on, below
      `candidates`, whose outputs are the program itself. */
  function Find(m: Day17a.Machine, from: nat, candidates: nat, fuel: nat): Result<nat>
    decreases candidates - from
  {
    if from >= candidates then Err("no value of register A below the bound")
    else
      var outputs :- Trial(m, from, fuel);
      if outputs == m.program then Ok(from) else Find(m, from + 1, candidates, fuel)
  }

  /** Register A set to `b` runs to completion and outputs something other
      than the program. */
  predicate Misses(m: Day17a.Machine, b: nat, fuel: nat)
  {
    Trial(m, b, fuel).Ok? && Trial(m, b, fuel).value != m.program
  }

  /** A value found is the smallest that works: the program outputs itself
      with it, and every smaller value from `from` on runs to a different
      output. */
  lemma {:induction false} FindSmallest(m: Day17a.Machine, from: nat, candidates: nat, fuel: nat)
    requires Find(m, from, candidates, fuel).Ok?
    ensures var a := Find(m, from, candidates, fuel).value;
      from <= a < candidates && Trial(m, a, fuel) == Ok(m.program) &&
      forall b :: from <= b < a ==> Misses(m, b, fuel)
    decreases candidates - from
  {
    if Trial(m, from, fuel).value != m.program {
      FindSmallest(m, from + 1, candidates, fuel);
    }
  }

  /** The search misses nothing: when every trial below the bound runs to
      completion and none outputs the program, and only then, it fails. */
  lemma {:induction false} FindComplete(m: Day17a.Machine, from: nat, candidates: nat, fuel: nat)
    requires forall b :: from <= b < candidates ==> Trial(m, b, fuel).Ok?
    ensures Find(m, from, candidates, fuel).Err? <==>
      forall b :: from <= b < candidates ==> Trial(m, b, fuel).value != m.program
    decreases candidates - from
  {
    if from < candidates {
      var outputs := Trial(m, from, fuel).value;
      if outputs != m.program {
        FindComplete(m, from + 1, candidates, fuel);
        assert Find(m, from, candidates, fuel) == Find(m, from + 1, candidates, fuel);
      } else {
        assert Find(m, from, candidates, fuel) == Ok(from);
      }
    }
  }

  /** The search loop: try `a = 0, 1, ...` on a fresh clone each time,
      with the output cleared; `a` stays within `u64`. */
  method Search(m: Day17a.Machine, candidates: nat, fuel: nat) returns (r: Result<nat>)
    requires candidates <= U64_LIMIT && m.ip == 0 && !m.halted
    ensures r == Find(m, 0, candidates, fuel)
  {
    var a := 0;
    while true
      invariant a <= candidates
      invariant Find(m, 0, candidates, fuel) == Find(m, a, candidates, fuel)
      decreases candidates - a
    {
      if a == candidates {
        return Err("no value of register A below the bound");
      }
      var vm := new Day17a.VM(a, m.b, m.c, m.program);
      assert vm.Snapshot() == m.(a := a);
      var output := Run(vm, Always, fuel);
      if output.Err? {
        return Err(output.msg);
      }
      if output.value == m.program {
        return Ok(a);
      }
      a := a + 1;
    }
  }

  /** `do_it`: read the machine as part one does, then search. */
  function Answer(lines: seq<string>, candidates: nat, fuel: nat): Result<nat>
  {
    var m :- Day17a.ReadInput(lines);
    Find(m, 0, candidates, fuel)
  }

  /** Register A set to `a` makes the program output exactly itself. */
  predicate Quine(m: Day17a.Machine, a: nat, fuel: nat)
  {
    Day17a.Outputs(m.(a := a), fuel) == Ok(m.program)
  }

  /** Register A set to `b` runs to completion with some other output. */
  predicate Differs(m: Day17a.Machine, b: nat, fuel: nat)
  {
    Day17a.Outputs(m.(a := b), fuel).Ok? && Day17a.Outputs(m.(a := b), fuel).value != m.program
  }

  /** A trial is the run of part one with register A replaced. */
  lemma TrialOutputs(m: Day17a.Machine, a: nat, fuel: nat)
    ensures Trial(m, a, fuel) == Day17a.Outputs(m.(a := a), fuel)
  {
    CollectedAll(m.(a := a), fuel);
  }

  /** The answer is the smallest value of register A that makes the
      program output itself. */
  lemma AnswerSmallest(lines: seq<string>, candidates: nat, fuel: nat)
    requires Answer(lines, candidates, fuel).Ok?
    ensures var m, a := Day17a.ReadInput(lines).value, Answer(lines, candidates, fuel).value;
      Quine(m, a, fuel) && forall b :: 0 <= b < a ==> Differs(m, b, fuel)
  {
    var m := Day17a.ReadInput(lines).value;
    var a := Find(m, 0, candidates, fuel).value;
    FindSmallest(m, 0, candidates, fuel);
    TrialOutputs(m, a, fuel);
    forall b | 0 <= b < a ensures Differs(m, b, fuel) {
      assert Misses(m, b, fuel);
      TrialOutputs(m, b, fuel);
    }
  }

  /** `do_it`. */
  method Solve(lines: seq<string>, candidates: nat, fuel: nat) returns (r: Result<nat>)
    requires candidates <= U64_LIMIT
    ensures r == Answer(lines, candidates, fuel)
  {
    var m := Day17a.ReadInput(lines);
    if m.Err? {
      return Err(m.msg);
    }
    r := Search(m.value, candidates, fuel);
  }
}
