/** Restroom redoubt: robots move on a grid that wraps around at its edges,
    each by its own velocity once per second. After 100 seconds the robots
    in each quadrant are counted, ignoring the middle row and column, and
    the four counts are multiplied. */
module Day14a {
  import opened Common
  import opened Text
  import opened Grid2D

  /** A robot: where it is and how far it moves each second. */
  datatype Robot = Robot(position: Point, velocity: Point)

  /** Rust's `%` on `i64` for a positive divisor: the remainder takes the
      sign of the dividend (the quotient is truncated toward zero). */
  function RustRem(a: int, m: int): (r: int)
    requires m > 0
    ensures -m < r < m && (a >= 0 ==> r >= 0) && (a < 0 ==> r <= 0)
  {
    if a >= 0 then a % m else -((-a) % m)
  }

  /** The wrap in `advance`: the truncated remainder, moved up by the
      divisor when it is negative, is the Euclidean remainder. */
  lemma WrapIsRemainder(a: int, m: int)
    requires m > 0
    ensures var r := RustRem(a, m); (if r < 0 then r + m else r) == a % m
  {
    var r := RustRem(a, m);
    if a < 0 {
      var q := (-a) / m;
      assert -a == q * m + (-a) % m;
      if r < 0 {
        assert a == (-q - 1) * m + (r + m);
        ModUnique(a, m, -q - 1, r + m);
      } else {
        assert a == (-q) * m + 0;
        ModUnique(a, m, -q, 0);
      }
    }
  }

  /** One second for one robot: the position moves by the velocity and
      wraps into `0 .. width - 1` by `0 .. height - 1`. */
  function Move(r: Robot, width: nat, height: nat): (moved: Robot)
    requires width > 0 && height > 0
    ensures InBounds(width, height, moved.position) && moved.velocity == r.velocity
  {
    var p := r.position.Add(r.velocity);
    Robot(Point(p.x % width, p.y % height), r.velocity)
  }

  /** One second for every robot, each keeping its place in the list. */
  function Tick(robots: seq<Robot>, width: nat, height: nat): (r: seq<Robot>)
    requires width > 0 && height > 0
    ensures |r| == |robots| && forall i :: 0 <= i < |r| ==> r[i] == Move(robots[i], width, height)
  {
    seq(|robots|, i requires 0 <= i < |robots| => Move(robots[i], width, height))
  }

  /** The robots after `n` seconds. */
  function Ticks(robots: seq<Robot>, width: nat, height: nat, n: nat): (r: seq<Robot>)
    requires width > 0 && height > 0
    ensures |r| == |robots|
  {
    if n == 0 then robots else Tick(Ticks(robots, width, height, n - 1), width, height)
  }

  /** Adding to a remainder is adding to the number: `(a % m + v) % m == (a + v) % m`. */
  lemma ModAddMod(a: int, v: int, m: int)
    requires m > 0
    ensures (a % m + v) % m == (a + v) % m
  {
    var q, r := a / m, a % m;
    var q2, r2 := (r + v) / m, (r + v) % m;
    assert a + v == (q + q2) * m + r2 by {
      assert a == q * m + r;
      assert r + v == q2 * m + r2;
    }
    ModUnique(a + v, m, q + q2, r2);
  }

  /** A multiple of `m` added makes no difference to the remainder. */
  lemma ModMultiple(a: int, k: int, m: int)
    requires m > 0
    ensures (a + k * m) % m == a % m
  {
    var q, r := a / m, a % m;
    assert a + k * m == (q + k) * m + r by {
      assert a == q * m + r;
    }
    ModUnique(a + k * m, m, q + k, r);
  }

  /** After `n >= 1` seconds every robot is at its start plus `n` times its
      velocity, wrapped: positions do not depend on the path taken. */
  lemma {:induction false} TicksClosedForm(robots: seq<Robot>, width: nat, height: nat, n: nat, i: nat)
    requires width > 0 && height > 0 && n >= 1 && i < |robots|
    ensures Ticks(robots, width, height, n)[i] == Drift(robots[i], width, height, n)
  {
    if n > 1 {
      TicksClosedForm(robots, width, height, n - 1, i);
      var before := Ticks(robots, width, height, n - 1);
      assert Ticks(robots, width, height, n)[i] == Move(before[i], width, height);
      DriftStep(robots[i], width, height, n);
    }
  }

  /** A robot `n` seconds on, computed in one go. */
  function Drift(r: Robot, width: nat, height: nat, n: nat): Robot
    requires width > 0 && height > 0
  {
    var p, v := r.position, r.velocity;
    Robot(Point((p.x + n * v.x) % width, (p.y + n * v.y) % height), v)
  }

  lemma DriftStep(r: Robot, width: nat, height: nat, n: nat)
    requires width > 0 && height > 0 && n >= 1
    ensures Move(Drift(r, width, height, n - 1), width, height) == Drift(r, width, height, n)
  {
    var p, v := r.position, r.velocity;
    var x, y := p.x + (n - 1) * v.x, p.y + (n - 1) * v.y;
    assert Drift(r, width, height, n - 1) == Robot(Point(x % width, y % height), v);
    assert x + v.x == p.x + n * v.x by {
      NextRow(n - 1, v.x);
    }
    assert y + v.y == p.y + n * v.y by {
      NextRow(n - 1, v.y);
    }
    ModAddMod(x, v.x, width);
    ModAddMod(y, v.y, height);
  }

  /** Robots that start on the grid are all back where they started after
      `width * height` seconds: the motion is periodic. */
  lemma TicksPeriodic(robots: seq<Robot>, width: nat, height: nat)
    requires width > 0 && height > 0
    requires forall i :: 0 <= i < |robots| ==> InBounds(width, height, robots[i].position)
    ensures Ticks(robots, width, height, width * height) == robots
  {
    var after := Ticks(robots, width, height, width * height);
    MulAtLeast(height, width);
    forall i | 0 <= i < |robots| ensures after[i] == robots[i] {
      TicksClosedForm(robots, width, height, width * height, i);
      DriftPeriod(robots[i], width, height);
    }
  }

  /** `width * height` seconds bring a robot on the grid back to its start. */
  lemma DriftPeriod(r: Robot, width: nat, height: nat)
    requires width > 0 && height > 0 && InBounds(width, height, r.position)
    ensures Drift(r, width, height, width * height) == r
  {
    var p, v := r.position, r.velocity;
    MulRearrange(width, height, v.x, v.y);
    ModMultiple(p.x, height * v.x, width);
    ModMultiple(p.y, width * v.y, height);
    ModUnique(p.x, width, 0, p.x);
    ModUnique(p.y, height, 0, p.y);
  }

  lemma MulRearrange(w: int, h: int, a: int, b: int)
    ensures w * h * a == h * a * w && w * h * b == w * b * h
  {
  }

  /** The quadrant of a position: 0 on the middle row or column, otherwise
      1 + (1 if right of the middle) + (2 if below the middle). */
  function Quadrant(width: nat, height: nat, p: Point): (q: nat)
    ensures q <= 4
  {
    var cx, cy := width / 2, height / 2;
    if p.x == cx || p.y == cy then 0
    else 1 + (if p.x > cx then 1 else 0) + (if p.y > cy then 2 else 0)
  }

  /** How many robots are in quadrant `q`. */
  function Tally(robots: seq<Robot>, width: nat, height: nat, q: nat): (n: nat)
    ensures n <= |robots|
  {
    if robots == [] then 0
    else Tally(robots[..|robots| - 1], width, height, q) + (if Quadrant(width, height, robots[|robots| - 1].position) == q then 1 else 0)
  }

  /** Every robot is in exactly one quadrant or on a middle line. */
  lemma {:induction false} TallyShares(robots: seq<Robot>, width: nat, height: nat)
    ensures Tally(robots, width, height, 0) + Tally(robots, width, height, 1) + Tally(robots, width, height, 2) +
      Tally(robots, width, height, 3) + Tally(robots, width, height, 4) == |robots|
  {
    if robots != [] {
      TallyShares(robots[..|robots| - 1], width, height);
    }
  }

  /** The safety factor: the product of the four quadrant counts. */
  function SafetyFactor(robots: seq<Robot>, width: nat, height: nat): nat
  {
    var q1, q2 := Tally(robots, width, height, 1), Tally(robots, width, height, 2);
    var q3, q4 := Tally(robots, width, height, 3), Tally(robots, width, height, 4);
    MulNonNegative(q1, q2);
    MulNonNegative(q1 * q2, q3);
    MulNonNegative(q1 * q2 * q3, q4);
    q1 * q2 * q3 * q4
  }

  /** If any quadrant is empty the factor is zero; otherwise it is positive. */
  lemma SafetyFactorZero(robots: seq<Robot>, width: nat, height: nat)
    ensures SafetyFactor(robots, width, height) == 0 <==>
      exists q :: 1 <= q <= 4 && Tally(robots, width, height, q) == 0
  {
    var q1, q2 := Tally(robots, width, height, 1), Tally(robots, width, height, 2);
    var q3, q4 := Tally(robots, width, height, 3), Tally(robots, width, height, 4);
    assert SafetyFactor(robots, width, height) == q1 * q2 * q3 * q4;
    if q1 > 0 && q2 > 0 && q3 > 0 && q4 > 0 {
      MulAtLeast(q1, q2);
      MulAtLeast(q1 * q2, q3);
      MulAtLeast(q1 * q2 * q3, q4);
      forall q | 1 <= q <= 4 ensures Tally(robots, width, height, q) != 0 {
        if q == 1 {} else if q == 2 {} else if q == 3 {} else {}
      }
    } else {
      ProductZero(q1, q2, q3, q4);
      var q := if q1 == 0 then 1 else if q2 == 0 then 2 else if q3 == 0 then 3 else 4;
      assert Tally(robots, width, height, q) == 0;
    }
  }

  lemma ProductZero(a: nat, b: nat, c: nat, d: nat)
    requires a == 0 || b == 0 || c == 0 || d == 0
    ensures a * b * c * d == 0
  {
    if a == 0 || b == 0 {
      assert a * b == 0;
    } else if c == 0 {
      assert a * b * c == 0;
    }
  }

  /** Rust's integer grammar in the line pattern: an optional minus sign,
      then one or more ASCII digits. */
  predicate IsInteger(s: string)
  {
    if |s| > 0 && s[0] == '-' then |s| >= 2 && AllDigits(s[1..]) else |s| >= 1 && AllDigits(s)
  }

  /** The pattern's four groups: position x and y, velocity x and y. */
  datatype Fields = Fields(px: string, py: string, vx: string, vy: string)

  predicate Integers(f: Fields)
  {
    IsInteger(f.px) && IsInteger(f.py) && IsInteger(f.vx) && IsInteger(f.vy)
  }

  /** The four numbers of a line `p=X,Y v=DX,DY`, if it has that shape. */
  function Captures(line: string): (r: Option<Fields>)
    ensures r.Some? ==> Integers(r.value)
  {
    if !StartsWith(line, "p=") then None
    else
      var halves := SplitPair(line[2..], ' ');
      if halves.None? || !StartsWith(halves.value.1, "v=") then None
      else
        var p, v := SplitPair(halves.value.0, ','), SplitPair(halves.value.1[2..], ',');
        if p.None? || v.None? then None
        else
          var f := Fields(p.value.0, p.value.1, v.value.0, v.value.1);
          if Integers(f) then Some(f) else None
  }

  /** The line four numbers make. */
  function RobotLine(f: Fields): string
  {
    var position, velocity := f.px + "," + f.py, f.vx + "," + f.vy;
    "p=" + (position + " " + ("v=" + velocity))
  }

  /** A line is captured exactly when it is the line of four integers,
      and then the captures are those integers. */
  lemma CapturesShape(line: string, f: Fields)
    ensures Captures(line) == Some(f) <==> Integers(f) && line == RobotLine(f)
  {
    if Captures(line) == Some(f) {
      CapturedLine(line, f);
    }
    if Integers(f) && line == RobotLine(f) {
      LineCaptured(f);
    }
  }

  lemma CapturedLine(line: string, f: Fields)
    requires Captures(line) == Some(f)
    ensures line == RobotLine(f)
  {
    var rest := line[2..];
    var halves := SplitPair(rest, ' ').value;
    var vel := halves.1[2..];
    assert SplitPair(halves.0, ',') == Some((f.px, f.py));
    assert SplitPair(vel, ',') == Some((f.vx, f.vy));
    SplitPairShape(rest, ' ', halves.0, halves.1);
    SplitPairShape(halves.0, ',', f.px, f.py);
    SplitPairShape(vel, ',', f.vx, f.vy);
    StartsWithSplit(line, "p=");
    StartsWithSplit(halves.1, "v=");
    PiecesMakeLine(line, rest, halves.0, halves.1, vel, f);
  }

  lemma PiecesMakeLine(line: string, rest: string, pos: string, velp: string, vel: string, f: Fields)
    requires line == "p=" + rest && rest == pos + [' '] + velp && velp == "v=" + vel
    requires pos == f.px + [','] + f.py && vel == f.vx + [','] + f.vy
    ensures line == RobotLine(f)
  {
  }

  lemma LineCaptured(f: Fields)
    requires Integers(f)
    ensures Captures(RobotLine(f)) == Some(f)
  {
    var line := RobotLine(f);
    IntegerHasNoSeparator(f.px);
    IntegerHasNoSeparator(f.py);
    IntegerHasNoSeparator(f.vx);
    IntegerHasNoSeparator(f.vy);
    var pos, vel := f.px + "," + f.py, f.vx + "," + f.vy;
    var rest := pos + " " + ("v=" + vel);
    assert line == "p=" + rest;
    Prefixed("p=", rest);
    Prefixed("v=", vel);
    assert rest == pos + [' '] + ("v=" + vel);
    assert ' ' !in pos && ' ' !in "v=" + vel;
    SplitPairShape(rest, ' ', pos, "v=" + vel);
    assert SplitPair(line[2..], ' ') == Some((pos, "v=" + vel));
    SplitPairShape(pos, ',', f.px, f.py);
    SplitPairShape(vel, ',', f.vx, f.vy);
    CapturesFrom(line, pos, "v=" + vel, f);
  }

  lemma CapturesFrom(line: string, pos: string, velp: string, f: Fields)
    requires Integers(f) && StartsWith(line, "p=") && SplitPair(line[2..], ' ') == Some((pos, velp))
    requires StartsWith(velp, "v=") && SplitPair(pos, ',') == Some((f.px, f.py))
    requires SplitPair(velp[2..], ',') == Some((f.vx, f.vy))
    ensures Captures(line) == Some(f)
  {
  }

  lemma IntegerHasNoSeparator(s: string)
    requires IsInteger(s)
    ensures ' ' !in s && ',' !in s
  {
    forall i | 0 <= i < |s| ensures s[i] != ' ' && s[i] != ',' {
      if s[0] == '-' && i > 0 {
        assert IsDigit(s[1..][i - 1]);
      } else if s[0] != '-' {
        assert IsDigit(s[i]);
      }
    }
  }

  /** The robot of four captured numbers, each parsed as an `i64`. */
  function ParseRobot(f: Fields): (r: Result<Robot>)
    ensures r.Ok? <==> (ParseSigned(f.px, I64_LIMIT).Ok? && ParseSigned(f.py, I64_LIMIT).Ok? &&
                        ParseSigned(f.vx, I64_LIMIT).Ok? && ParseSigned(f.vy, I64_LIMIT).Ok?)
    ensures r.Ok? ==> r.value == Robot(Point(ParseSigned(f.px, I64_LIMIT).value, ParseSigned(f.py, I64_LIMIT).value),
      Point(ParseSigned(f.vx, I64_LIMIT).value, ParseSigned(f.vy, I64_LIMIT).value))
  {
    var px :- ParseSigned(f.px, I64_LIMIT);
    var py :- ParseSigned(f.py, I64_LIMIT);
    var dx :- ParseSigned(f.vx, I64_LIMIT);
    var dy :- ParseSigned(f.vy, I64_LIMIT);
    Ok(Robot(Point(px, py), Point(dx, dy)))
  }

  /** One line's captures, or the error naming the line that does not match. */
  function CaptureLine(line: string): (r: Result<Fields>)
    ensures r.Ok? <==> Captures(line).Some?
    ensures r.Ok? ==> Captures(line) == Some(r.value)
  {
    match Captures(line)
    case Some(f) => Ok(f)
    case None => Err("failed to match line: " + line)
  }

  /** The robots of the input: first every line must match, then every
      number must fit an `i64`. */
  function ReadRobots(lines: seq<string>): Result<seq<Robot>>
  {
    var fields :- Collect(lines, CaptureLine);
    Collect(fields, ParseRobot)
  }

  /** The input is read exactly when every line has the robot shape and
      every number fits, and then robot `k` is line `k`'s. */
  lemma ReadRobotsEach(lines: seq<string>)
    ensures ReadRobots(lines).Ok? <==>
      (forall k :: 0 <= k < |lines| ==> Captures(lines[k]).Some?) &&
      (forall k :: 0 <= k < |lines| ==> ParseRobot(Captures(lines[k]).value).Ok?)
    ensures ReadRobots(lines).Ok? ==> |ReadRobots(lines).value| == |lines|
    ensures ReadRobots(lines).Ok? ==>
      forall k :: 0 <= k < |lines| ==> ParseRobot(Captures(lines[k]).value) == Ok(ReadRobots(lines).value[k])
  {
    CollectEach(lines, CaptureLine);
    var fields := Collect(lines, CaptureLine);
    if fields.Ok? {
      CollectEach(fields.value, ParseRobot);
      assert forall k :: 0 <= k < |lines| ==> Captures(lines[k]) == Some(fields.value[k]);
    }
  }

  /** The grid and its robots. */
  class State {
    var width: nat
    var height: nat
    var robots: seq<Robot>

    constructor (width: nat, height: nat, robots: seq<Robot>)
      ensures this.width == width && this.height == height && this.robots == robots
    {
      this.width := width;
      this.height := height;
      this.robots := robots;
    }

    /** `advance`: every robot moves by its velocity; a coordinate that
        leaves the grid is wrapped with the truncating remainder and, when
        that is negative, moved up by the grid size. */
    method Advance()
      requires width > 0 && height > 0
      modifies this
      ensures width == old(width) && height == old(height)
      ensures robots == Tick(old(robots), width, height)
    {
      ghost var start := robots;
      for i := 0 to |robots|
        invariant width == old(width) && height == old(height)
        invariant |robots| == |start|
        invariant forall k :: 0 <= k < i ==> robots[k] == Move(start[k], width, height)
        invariant forall k :: i <= k < |robots| ==> robots[k] == start[k]
      {
        var r := robots[i];
        var x := r.position.x + r.velocity.x;
        var y := r.position.y + r.velocity.y;
        WrapIsRemainder(x, width);
        WrapIsRemainder(y, height);
        x := RustRem(x, width);
        y := RustRem(y, height);
        if x < 0 {
          x := x + width;
        }
        if y < 0 {
          y := y + height;
        }
        robots := robots[i := Robot(Point(x, y), r.velocity)];
      }
    }

    /** `count`: the robots strictly left-and-above, right-and-above,
        left-and-below and right-and-below the middle are counted, and
        the counts multiplied. */
    method Count() returns (factor: nat)
      ensures factor == SafetyFactor(robots, width, height)
    {
      var centerX, centerY := width / 2, height / 2;
      var quad1, quad2, quad3, quad4 := 0, 0, 0, 0;
      for i := 0 to |robots|
        invariant quad1 == Tally(robots[..i], width, height, 1)
        invariant quad2 == Tally(robots[..i], width, height, 2)
        invariant quad3 == Tally(robots[..i], width, height, 3)
        invariant quad4 == Tally(robots[..i], width, height, 4)
      {
        var p := robots[i].position;
        assert robots[..i + 1][..i] == robots[..i];
        if p.x < centerX && p.y < centerY {
          quad1 := quad1 + 1;
        } else if p.x > centerX && p.y < centerY {
          quad2 := quad2 + 1;
        } else if p.x < centerX && p.y > centerY {
          quad3 := quad3 + 1;
        } else if p.x > centerX && p.y > centerY {
          quad4 := quad4 + 1;
        }
      }
      assert robots[..|robots|] == robots;
      MulNonNegative(quad1, quad2);
      MulNonNegative(quad1 * quad2, quad3);
      MulNonNegative(quad1 * quad2 * quad3, quad4);
      factor := quad1 * quad2 * quad3 * quad4;
    }
  }

  /** `do_it`: the trimmed lines read as robots, 100 seconds on a grid of
      the given size, then the safety factor. A zero-sized grid makes the
      remainder panic, so the grid must have both sizes positive. */
  method Solve(lines: seq<string>, width: nat, height: nat) returns (r: Result<nat>)
    requires width > 0 && height > 0
    ensures r.Ok? <==> ReadRobots(TrimLines(lines)).Ok?
    ensures r.Ok? ==> r.value == SafetyFactor(Ticks(ReadRobots(TrimLines(lines)).value, width, height, 100), width, height)
  {
    var robots := ReadRobots(TrimLines(lines));
    if robots.Err? {
      return Err(robots.msg);
    }
    var factor := Simulate(robots.value, width, height);
    return Ok(factor);
  }

  /** The part of `do_it` after reading: 100 calls of `advance`, then `count`. */
  method Simulate(robots: seq<Robot>, width: nat, height: nat) returns (factor: nat)
    requires width > 0 && height > 0
    ensures factor == SafetyFactor(Ticks(robots, width, height, 100), width, height)
  {
    var state := new State(width, height, robots);
    for n := 0 to 100
      invariant state.width == width && state.height == height
      invariant state.robots == Ticks(robots, width, height, n)
    {
      state.Advance();
    }
    factor := state.Count();
  }
}
