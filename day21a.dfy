/** Keypad conundrum, part one: a code is typed on a numeric keypad by a
    robot arm, that arm is steered from a directional keypad by a second
    arm, that one from a second directional keypad by a third, and the
    third from a directional keypad pressed by hand. Every cursor starts
    on the pad's A key and must never rest over the pad's gap. `solve`
    builds, level by level, the buttons to press one pad further out and
    answers the length of the outermost sequence. */
module Day21a {
  import opened Common
  import opened Grid2D
  import opened Text

  /** A key of the numeric pad: a digit or the A key. */
  datatype NumericSymbol = Accept | Digit(c: char)

  /** A key of a directional pad: the A key (`Activate`) or an arrow. */
  datatype DirectionalSymbol = Activate | Push(d: Direction)

  /** A keypad three keys wide, with `rows` rows and a gap in column 0
      of row `gap`. */
  datatype Pad = Pad(rows: int, gap: int)

  const NumericPad := Pad(4, 3)
  const DirectionalPad := Pad(2, 0)

  // ------------------------------------------------------------ rendering

  /** `{:?}` of an `i8`. */
  function ShowInt(i: int): string
  {
    if i < 0 then "-" + Decimal(-i) else Decimal(i)
  }

  /** `{:?}` of a `Point`. */
  function ShowPoint(p: Point): string
  {
    "Point { x: " + ShowInt(p.x) + ", y: " + ShowInt(p.y) + " }"
  }

  /** `{:?}` of a numeric symbol. */
  function ShowNumeric(s: NumericSymbol): string
  {
    match s
    case Accept => "Accept"
    case Digit(c) => "Digit('" + [c] + "')"
  }

  // ----------------------------------------------------------- the pads

  /** A point of the pad that is not its gap. */
  predicate OnPad(pad: Pad, p: Point)
  {
    0 <= p.x <= 2 && 0 <= p.y < pad.rows && !(p.x == 0 && p.y == pad.gap)
  }

  /** The numeric pad: three columns, four rows, and the gap at (0, 3)
      left of the 0 key.
        7 8 9
        4 5 6
        1 2 3
          0 A   */
  predicate OnNumeric(p: Point)
  {
    OnPad(NumericPad, p)
  }

  /** The directional pad: three columns, two rows, and the gap at (0, 0)
      left of the up arrow.
          ^ A
        < v >   */
  predicate OnDirectional(p: Point)
  {
    OnPad(DirectionalPad, p)
  }

  /** `NumericKeypad::get`: the key under the cursor; the gap and every
      point off the pad are an error. */
  function NumericAt(p: Point): (r: Result<NumericSymbol>)
    ensures r.Ok? <==> OnNumeric(p)
    ensures r.Err? ==> r.msg == "illegal position: " + ShowPoint(p)
  {
    if p == Point(0, 0) then Ok(Digit('7'))
    else if p == Point(1, 0) then Ok(Digit('8'))
    else if p == Point(2, 0) then Ok(Digit('9'))
    else if p == Point(0, 1) then Ok(Digit('4'))
    else if p == Point(1, 1) then Ok(Digit('5'))
    else if p == Point(2, 1) then Ok(Digit('6'))
    else if p == Point(0, 2) then Ok(Digit('1'))
    else if p == Point(1, 2) then Ok(Digit('2'))
    else if p == Point(2, 2) then Ok(Digit('3'))
    else if p == Point(1, 3) then Ok(Digit('0'))
    else if p == Point(2, 3) then Ok(Accept)
    else Err("illegal position: " + ShowPoint(p))
  }

  /** The symbols the numeric pad has: A and the ten digits. */
  predicate IsNumericKey(s: NumericSymbol)
  {
    s.Accept? || IsDigit(s.c)
  }

  /** `NumericKeypad::get_coordinates_of_symbol`: where a key is; a
      symbol the pad does not have is an error. The key found there is
      the symbol itself. */
  function NumericCoordinates(s: NumericSymbol): (r: Result<Point>)
    ensures r.Ok? <==> IsNumericKey(s)
    ensures r.Ok? ==> NumericAt(r.value) == Ok(s)
    ensures r.Err? ==> r.msg == "illegal symbol: " + ShowNumeric(s)
  {
    match s
    case Accept => Ok(Point(2, 3))
    case Digit(c) =>
      if c == '0' then Ok(Point(1, 3))
      else if c == '1' then Ok(Point(0, 2))
      else if c == '2' then Ok(Point(1, 2))
      else if c == '3' then Ok(Point(2, 2))
      else if c == '4' then Ok(Point(0, 1))
      else if c == '5' then Ok(Point(1, 1))
      else if c == '6' then Ok(Point(2, 1))
      else if c == '7' then Ok(Point(0, 0))
      else if c == '8' then Ok(Point(1, 0))
      else if c == '9' then Ok(Point(2, 0))
      else Err("illegal symbol: " + ShowNumeric(s))
  }

  /** The other half of the inverse: every key of the numeric pad is found
      where it is. */
  lemma NumericAtInverse(p: Point)
    ensures NumericAt(p).Ok? ==> NumericCoordinates(NumericAt(p).value) == Ok(p)
  {
  }

  /** `DirectionalKeypad::get`. */
  function DirectionalAt(p: Point): (r: Result<DirectionalSymbol>)
    ensures r.Ok? <==> OnDirectional(p)
    ensures r.Ok? ==> DirectionalCoordinates(r.value) == p
    ensures r.Err? ==> r.msg == "illegal position: " + ShowPoint(p)
  {
    if p == Point(1, 0) then Ok(Push(Up))
    else if p == Point(2, 0) then Ok(Activate)
    else if p == Point(0, 1) then Ok(Push(Left))
    else if p == Point(1, 1) then Ok(Push(Down))
    else if p == Point(2, 1) then Ok(Push(Right))
    else Err("illegal position: " + ShowPoint(p))
  }

  /** `DirectionalKeypad::get_coordinates_of_symbol`: every symbol is a
      key of the directional pad. */
  function DirectionalCoordinates(s: DirectionalSymbol): (p: Point)
    ensures OnDirectional(p)
  {
    match s
    case Activate => Point(2, 0)
    case Push(Left) => Point(0, 1)
    case Push(Right) => Point(2, 1)
    case Push(Up) => Point(1, 0)
    case Push(Down) => Point(1, 1)
  }

  /** The other half of the inverse: the key found where a symbol is, is
      that symbol. */
  lemma DirectionalCoordinatesInverse(s: DirectionalSymbol)
    ensures DirectionalAt(DirectionalCoordinates(s)) == Ok(s)
  {
  }

  // --------------------------------------------------------------- walks

  /** `n` copies of `d` (none when `n` is not positive). */
  function Repeat(d: Direction, n: int): (r: seq<Direction>)
    ensures |r| == if n <= 0 then 0 else n
    decreases n
  {
    if n <= 0 then [] else Repeat(d, n - 1) + [d]
  }

  /** The moves along one axis from coordinate `a` to `b`. */
  function Toward(a: int, b: int, less: Direction, more: Direction): (r: seq<Direction>)
    ensures |r| == Abs(b - a)
  {
    if b < a then Repeat(less, a - b) else Repeat(more, b - a)
  }

  /** `current + d.to_vector()`: one step, with y growing downwards. */
  function Move(p: Point, d: Direction): Point
  {
    match d
    case Up => Point(p.x, p.y - 1)
    case Down => Point(p.x, p.y + 1)
    case Left => Point(p.x - 1, p.y)
    case Right => Point(p.x + 1, p.y)
  }

  /** The point `k` steps from `p` in direction `d`. */
  function Offset(p: Point, d: Direction, k: int): Point
  {
    match d
    case Up => Point(p.x, p.y - k)
    case Down => Point(p.x, p.y + k)
    case Left => Point(p.x - k, p.y)
    case Right => Point(p.x + k, p.y)
  }

  /** Moving the cursor by `ds` from `p`: None as soon as a step leaves
      the pad or lands on its gap, else the point reached. */
  function Walk(pad: Pad, p: Point, ds: seq<Direction>): Option<Point>
    decreases |ds|
  {
    if ds == [] then Some(p)
    else if OnPad(pad, Move(p, ds[0])) then Walk(pad, Move(p, ds[0]), ds[1..])
    else None
  }

  lemma {:induction false} WalkAppend(pad: Pad, p: Point, a: seq<Direction>, b: seq<Direction>)
    requires Walk(pad, p, a).Some?
    ensures Walk(pad, p, a + b) == Walk(pad, Walk(pad, p, a).value, b)
    decreases |a|
  {
    if a == [] {
      assert a + b == b;
    } else {
      var q := Move(p, a[0]);
      assert OnPad(pad, q) && Walk(pad, p, a) == Walk(pad, q, a[1..]);
      WalkAppend(pad, q, a[1..], b);
      var ab := a + b;
      assert ab[0] == a[0] && ab[1..] == a[1..] + b;
      assert Walk(pad, p, ab) == Walk(pad, q, ab[1..]);
    }
  }

  /** A straight run whose every point is on the pad ends `n` steps away. */
  lemma {:induction false} WalkStraight(pad: Pad, p: Point, d: Direction, n: int)
    requires forall k :: 1 <= k <= n ==> OnPad(pad, Offset(p, d, k))
    ensures Walk(pad, p, Repeat(d, n)) == Some(if n <= 0 then p else Offset(p, d, n))
    decreases n
  {
    if n > 0 {
      WalkStraight(pad, p, d, n - 1);
      WalkAppend(pad, p, Repeat(d, n - 1), [d]);
      var q := if n - 1 <= 0 then p else Offset(p, d, n - 1);
      assert Move(q, d) == Offset(p, d, n);
      assert Walk(pad, Move(q, d), []) == Some(Offset(p, d, n));
    }
  }

  // ---------------------------------------------------------- numeric routes

  /** How far `update_to` first climbs: only from the bottom row, and up to
      the target's row. */
  function Rise(from: Point, to: Point): int
  {
    if from.y == 3 && to.y < from.y then from.y - to.y else 0
  }

  /** The directions `NumericKeypad::update_to` emits: up first when the
      cursor is on the bottom row, then along the row, then along the
      column. */
  function NumericRoute(from: Point, to: Point): seq<Direction>
  {
    Repeat(Up, Rise(from, to)) + Toward(from.x, to.x, Left, Right) + Toward(from.y - Rise(from, to), to.y, Up, Down)
  }

  /** The climb out of the bottom row stays on the pad. */
  lemma ClimbWalks(from: Point, to: Point, ds: seq<Direction>)
    requires OnNumeric(from) && OnNumeric(to) && ds == Repeat(Up, Rise(from, to))
    ensures Walk(NumericPad, from, ds) == Some(Point(from.x, from.y - Rise(from, to)))
  {
    forall k | 1 <= k <= Rise(from, to)
      ensures OnPad(NumericPad, Offset(from, Up, k))
    {
    }
    WalkStraight(NumericPad, from, Up, Rise(from, to));
  }

  /** The move along a row stays on the pad: on the bottom row it runs
      between keys right of the gap. */
  lemma AcrossWalks(p: Point, to: Point, ds: seq<Direction>)
    requires OnNumeric(p) && OnNumeric(to) && (p.y == 3 ==> to.y == 3) && ds == Toward(p.x, to.x, Left, Right)
    ensures Walk(NumericPad, p, ds) == Some(Point(to.x, p.y))
  {
    var n := Abs(to.x - p.x);
    var d := if to.x < p.x then Left else Right;
    assert ds == Repeat(d, n);
    forall k | 1 <= k <= n
      ensures OnPad(NumericPad, Offset(p, d, k))
    {
    }
    WalkStraight(NumericPad, p, d, n);
    assert (if n <= 0 then p else Offset(p, d, n)) == Point(to.x, p.y);
  }

  /** The move along the target's column stays on the pad: it only
      reaches the bottom row when the target is there. */
  lemma ColumnWalks(p: Point, to: Point, ds: seq<Direction>)
    requires OnNumeric(to) && p.x == to.x && 0 <= p.y <= 3 && (p.y == 3 ==> to.y == 3) && ds == Toward(p.y, to.y, Up, Down)
    ensures Walk(NumericPad, p, ds) == Some(to)
  {
    var n := Abs(to.y - p.y);
    var d := if to.y < p.y then Up else Down;
    assert ds == Repeat(d, n);
    forall k | 1 <= k <= n
      ensures OnPad(NumericPad, Offset(p, d, k))
    {
    }
    WalkStraight(NumericPad, p, d, n);
    assert (if n <= 0 then p else Offset(p, d, n)) == to;
  }

  /** Between any two keys the route is as short as the grid allows and
      never crosses the gap: it climbs out of the bottom row before it
      moves sideways, and it only moves down the column of a target that
      is a key. */
  lemma NumericRouteWalks(from: Point, to: Point)
    requires OnNumeric(from) && OnNumeric(to)
    ensures Walk(NumericPad, from, NumericRoute(from, to)) == Some(to)
    ensures |NumericRoute(from, to)| == Abs(to.x - from.x) + Abs(to.y - from.y)
  {
    NumericRouteLength(from, to);
    NumericRouteEnds(from, to);
  }

  lemma NumericRouteLength(from: Point, to: Point)
    requires OnNumeric(from) && OnNumeric(to)
    ensures |NumericRoute(from, to)| == Abs(to.x - from.x) + Abs(to.y - from.y)
  {
    var rise := Rise(from, to);
    assert |NumericRoute(from, to)| == rise + Abs(to.x - from.x) + Abs(to.y - (from.y - rise));
  }

  lemma NumericRouteEnds(from: Point, to: Point)
    requires OnNumeric(from) && OnNumeric(to)
    ensures Walk(NumericPad, from, NumericRoute(from, to)) == Some(to)
  {
    var rise := Rise(from, to);
    NumericLegs(from, to);
    WalkThree(NumericPad, from, Repeat(Up, rise), Toward(from.x, to.x, Left, Right), Toward(from.y - rise, to.y, Up, Down),
      Point(from.x, from.y - rise), Point(to.x, from.y - rise), to);
  }

  /** Each of the three legs of a numeric route stays on the pad. */
  lemma NumericLegs(from: Point, to: Point)
    requires OnNumeric(from) && OnNumeric(to)
    ensures var rise := Rise(from, to);
      Walk(NumericPad, from, Repeat(Up, rise)) == Some(Point(from.x, from.y - rise)) &&
      Walk(NumericPad, Point(from.x, from.y - rise), Toward(from.x, to.x, Left, Right)) == Some(Point(to.x, from.y - rise)) &&
      Walk(NumericPad, Point(to.x, from.y - rise), Toward(from.y - rise, to.y, Up, Down)) == Some(to)
  {
    var rise := Rise(from, to);
    var p1 := Point(from.x, from.y - rise);
    var p2 := Point(to.x, from.y - rise);
    LegPoints(from, to);
    ClimbWalks(from, to, Repeat(Up, rise));
    AcrossWalks(p1, to, Toward(from.x, to.x, Left, Right));
    ColumnWalks(p2, to, Toward(p1.y, to.y, Up, Down));
  }

  /** After the climb the cursor is on the pad, and on the bottom row only
      when the target is too. */
  lemma LegPoints(from: Point, to: Point)
    requires OnNumeric(from) && OnNumeric(to)
    ensures var y := from.y - Rise(from, to);
      OnNumeric(Point(from.x, y)) && 0 <= y <= 3 && (y == 3 ==> to.y == 3)
  {
  }

  lemma WalkThree(pad: Pad, p: Point, a: seq<Direction>, b: seq<Direction>, c: seq<Direction>, q1: Point, q2: Point, q3: Point)
    requires Walk(pad, p, a) == Some(q1) && Walk(pad, q1, b) == Some(q2) && Walk(pad, q2, c) == Some(q3)
    ensures Walk(pad, p, a + b + c) == Some(q3)
  {
    WalkAppend(pad, p, a, b);
    WalkAppend(pad, p, a + b, c);
  }

  // ------------------------------------------------------ directional routes

  /** The route table of `DirectionalKeypad::update_to` for two different
      keys; `wiggle` picks the route from A to the left arrow. Any other
      pair of points is an impossible move. */
  function DirectionalRoute(from: Point, to: Point, wiggle: bool): Result<seq<Direction>>
  {
    if from == Point(1, 0) && to == Point(2, 0) then Ok([Right])
    else if from == Point(1, 0) && to == Point(0, 1) then Ok([Down, Left])
    else if from == Point(1, 0) && to == Point(1, 1) then Ok([Down])
    else if from == Point(1, 0) && to == Point(2, 1) then Ok([Down, Right])
    else if from == Point(2, 0) && to == Point(1, 0) then Ok([Left])
    else if from == Point(2, 0) && to == Point(0, 1) then
      (if wiggle then Ok([Left, Down, Left]) else Ok([Down, Left, Left]))
    else if from == Point(2, 0) && to == Point(1, 1) then Ok([Left, Down])
    else if from == Point(2, 0) && to == Point(2, 1) then Ok([Down])
    else if from == Point(0, 1) && to == Point(1, 0) then Ok([Right, Up])
    else if from == Point(0, 1) && to == Point(2, 0) then Ok([Right, Right, Up])
    else if from == Point(0, 1) && to == Point(1, 1) then Ok([Right])
    else if from == Point(0, 1) && to == Point(2, 1) then Ok([Right, Right])
    else if from == Point(1, 1) && to == Point(1, 0) then Ok([Up])
    else if from == Point(1, 1) && to == Point(2, 0) then Ok([Right, Up])
    else if from == Point(1, 1) && to == Point(0, 1) then Ok([Left])
    else if from == Point(1, 1) && to == Point(2, 1) then Ok([Right])
    else if from == Point(2, 1) && to == Point(1, 0) then Ok([Left, Up])
    else if from == Point(2, 1) && to == Point(2, 0) then Ok([Up])
    else if from == Point(2, 1) && to == Point(0, 1) then Ok([Left, Left])
    else if from == Point(2, 1) && to == Point(1, 1) then Ok([Left])
    else Err("impossible move: " + ShowPoint(from) + " -> " + ShowPoint(to))
  }

  /** What `DirectionalKeypad::update_to` emits: nothing when the cursor is
      already on the target, else the table's route. */
  function Leg(from: Point, to: Point, wiggle: bool): Result<seq<Direction>>
  {
    if from == to then Ok([]) else DirectionalRoute(from, to, wiggle)
  }

  /** The leg from `from` to `to` exists, is as short as the grid allows,
      ends on the target and never crosses the gap. */
  ghost predicate LegWalks(from: Point, to: Point, wiggle: bool)
  {
    && Leg(from, to, wiggle).Ok?
    && Walk(DirectionalPad, from, Leg(from, to, wiggle).value) == Some(to)
    && |Leg(from, to, wiggle).value| == Abs(to.x - from.x) + Abs(to.y - from.y)
  }

  /** The table covers all twenty ordered pairs of different keys, and each
      route is as short as the grid allows, ends on the target and never
      crosses the gap; between equal keys nothing is emitted. */
  lemma DirectionalLegWalks(from: Point, to: Point, wiggle: bool)
    requires OnDirectional(from) && OnDirectional(to)
    ensures Leg(from, to, wiggle).Ok?
    ensures Walk(DirectionalPad, from, Leg(from, to, wiggle).value) == Some(to)
    ensures |Leg(from, to, wiggle).value| == Abs(to.x - from.x) + Abs(to.y - from.y)
    ensures from == to ==> Leg(from, to, wiggle).value == []
  {
    AllLegsWalk(from, to, wiggle);
  }

  lemma AllLegsWalk(from: Point, to: Point, wiggle: bool)
    requires OnDirectional(from) && OnDirectional(to)
    ensures LegWalks(from, to, wiggle)
  {
    if from == Point(1, 0) {
      LegsFromUp(to, wiggle);
    } else if from == Point(2, 0) {
      LegsFromA(to, wiggle);
    } else if from == Point(0, 1) {
      LegsFromLeft(to, wiggle);
    } else if from == Point(1, 1) {
      LegsFromDown(to, wiggle);
    } else {
      assert from == Point(2, 1);
      LegsFromRight(to, wiggle);
    }
  }

  lemma LegsFromUp(to: Point, wiggle: bool)
    requires OnDirectional(to)
    ensures LegWalks(Point(1, 0), to, wiggle)
  {
    if to == Point(1, 0) {
    } else if to == Point(2, 0) {
    } else if to == Point(0, 1) {
    } else if to == Point(1, 1) {
    } else {
      assert to == Point(2, 1);
    }
  }

  lemma LegsFromA(to: Point, wiggle: bool)
    requires OnDirectional(to)
    ensures LegWalks(Point(2, 0), to, wiggle)
  {
    if to == Point(1, 0) {
    } else if to == Point(2, 0) {
    } else if to == Point(0, 1) {
    } else if to == Point(1, 1) {
    } else {
      assert to == Point(2, 1);
    }
  }

  lemma LegsFromLeft(to: Point, wiggle: bool)
    requires OnDirectional(to)
    ensures LegWalks(Point(0, 1), to, wiggle)
  {
    if to == Point(1, 0) {
    } else if to == Point(2, 0) {
    } else if to == Point(0, 1) {
    } else if to == Point(1, 1) {
    } else {
      assert to == Point(2, 1);
    }
  }

  lemma LegsFromDown(to: Point, wiggle: bool)
    requires OnDirectional(to)
    ensures LegWalks(Point(1, 1), to, wiggle)
  {
    if to == Point(1, 0) {
    } else if to == Point(2, 0) {
    } else if to == Point(0, 1) {
    } else if to == Point(1, 1) {
    } else {
      assert to == Point(2, 1);
    }
  }

  lemma LegsFromRight(to: Point, wiggle: bool)
    requires OnDirectional(to)
    ensures LegWalks(Point(2, 1), to, wiggle)
  {
    if to == Point(1, 0) {
    } else if to == Point(2, 0) {
    } else if to == Point(0, 1) {
    } else if to == Point(1, 1) {
    } else {
      assert to == Point(2, 1);
    }
  }

  /** `wiggle_rule` changes only the route from A to the left arrow. */
  lemma WiggleOnlyFromAToLeft(from: Point, to: Point)
    ensures (from, to) != (Point(2, 0), Point(0, 1)) ==> DirectionalRoute(from, to, true) == DirectionalRoute(from, to, false)
    ensures DirectionalRoute(Point(2, 0), Point(0, 1), true) == Ok([Left, Down, Left])
    ensures DirectionalRoute(Point(2, 0), Point(0, 1), false) == Ok([Down, Left, Left])
  {
  }

  // ------------------------------------------------------------- keypads

  class NumericKeypad {
    var current: Point

    ghost predicate Valid()
      reads this
    {
      OnNumeric(current)
    }

    /** `new`: the cursor starts on A. */
    constructor ()
      ensures current == Point(2, 3) && Valid()
    {
      current := Point(2, 3);
    }

    /** `update`: one step, refused (and the cursor left where it is) when
        it would leave the pad or land on the gap. */
    method Update(d: Direction) returns (r: Result<()>)
      modifies this
      ensures r.Ok? <==> OnNumeric(Move(old(current), d))
      ensures current == if r.Ok? then Move(old(current), d) else old(current)
      ensures r.Err? ==> r.msg == "illegal position: " + ShowPoint(Move(old(current), d))
    {
      var next := Move(current, d);
      if next.x < 0 || next.y < 0 || next.x > 2 || next.y > 3 || (next.x == 0 && next.y == 3) {
        return Err("illegal position: " + ShowPoint(next));
      }
      current := next;
      return Ok(());
    }

    /** One `for _ in ..` loop of `update_to`: `n` times `update(d)`, each
        step handed on. The caller has checked that every point of the run
        is a key, so no `update` is refused. */
    method Repeatedly(d: Direction, n: int) returns (moves: seq<Direction>)
      requires forall k :: 1 <= k <= n ==> OnNumeric(Offset(current, d, k))
      modifies this
      ensures current == if n <= 0 then old(current) else Offset(old(current), d, n)
      ensures moves == Repeat(d, n)
    {
      ghost var from := current;
      moves := [];
      var i := 0;
      while i < n
        invariant (n <= 0 ==> i == 0) && (n > 0 ==> 0 <= i <= n)
        invariant current == Offset(from, d, i) && moves == Repeat(d, i)
      {
        assert Move(current, d) == Offset(from, d, i + 1) && OnNumeric(Offset(from, d, i + 1));
        var u := Update(d);
        if u.Err? {
          assert false;
        }
        moves := moves + [d];
        i := i + 1;
      }
      assert Offset(from, d, 0) == from;
    }

    /** `update_to`: move to the key of `symbol`, handing every step to the
        caller (here: returning them in order in `moves`). Only a symbol
        the pad does not have fails, before any step; every step succeeds
        and the route is `NumericRoute`. */
    method UpdateTo(symbol: NumericSymbol) returns (r: Result<()>, moves: seq<Direction>)
      requires Valid()
      modifies this
      ensures Valid()
      ensures r.Ok? <==> IsNumericKey(symbol)
      ensures r.Ok? ==> NumericCoordinates(symbol) == Ok(current) && moves == NumericRoute(old(current), current)
      ensures r.Err? ==> r.msg == NumericCoordinates(symbol).msg && current == old(current) && moves == []
    {
      var found := NumericCoordinates(symbol);
      if found.Err? {
        return Err(found.msg), [];
      }
      moves := MoveTo(found.value);
      return Ok(()), moves;
    }

    /** The three runs of `update_to` once the target is known: up out of
        the bottom row, along the row, along the column. */
    method MoveTo(target: Point) returns (moves: seq<Direction>)
      requires Valid() && OnNumeric(target)
      modifies this
      ensures current == target && moves == NumericRoute(old(current), target)
    {
      ghost var from := current;
      var climb := Climb(target);
      var across := Cross(target);
      var down := Column(target);
      moves := climb + across + down;
    }

    /** The first run: from the bottom row, up to the target's row. */
    method Climb(target: Point) returns (moves: seq<Direction>)
      requires Valid() && OnNumeric(target)
      modifies this
      ensures current == Point(old(current).x, old(current).y - Rise(old(current), target))
      ensures moves == Repeat(Up, Rise(old(current), target))
    {
      moves := [];
      if current.y == 3 {
        moves := Repeatedly(Up, current.y - target.y);
      }
    }

    /** The second run: along the row to the target's column; on the
        bottom row only when the target is on it too. */
    method Cross(target: Point) returns (moves: seq<Direction>)
      requires Valid() && OnNumeric(target) && (current.y == 3 ==> target.y == 3)
      modifies this
      ensures current == Point(target.x, old(current).y)
      ensures moves == Toward(old(current).x, target.x, Left, Right)
    {
      if target.x < current.x {
        moves := Repeatedly(Left, current.x - target.x);
      } else if target.x > current.x {
        moves := Repeatedly(Right, target.x - current.x);
      } else {
        moves := [];
      }
    }

    /** The third run: along the target's column to its row. */
    method Column(target: Point) returns (moves: seq<Direction>)
      requires OnNumeric(target) && current.x == target.x && 0 <= current.y <= 3 && (current.y == 3 ==> target.y == 3)
      modifies this
      ensures current == target
      ensures moves == Toward(old(current).y, target.y, Up, Down)
    {
      if target.y < current.y {
        moves := Repeatedly(Up, current.y - target.y);
      } else if target.y > current.y {
        moves := Repeatedly(Down, target.y - current.y);
      } else {
        moves := [];
      }
    }
  }

  class DirectionalKeypad {
    var current: Point

    ghost predicate Valid()
      reads this
    {
      OnDirectional(current)
    }

    /** `new`: the cursor starts on A. */
    constructor ()
      ensures current == Point(2, 0) && Valid()
    {
      current := Point(2, 0);
    }

    /** `update`: one step, refused (and the cursor left where it is) when
        it would leave the pad or land on the gap. */
    method Update(d: Direction) returns (r: Result<()>)
      modifies this
      ensures r.Ok? <==> OnDirectional(Move(old(current), d))
      ensures current == if r.Ok? then Move(old(current), d) else old(current)
      ensures r.Err? ==> r.msg == "illegal position: " + ShowPoint(Move(old(current), d))
    {
      var next := Move(current, d);
      if next.x < 0 || next.y < 0 || next.x > 2 || next.y > 1 || (next.x == 0 && next.y == 0) {
        return Err("illegal position: " + ShowPoint(next));
      }
      current := next;
      return Ok(());
    }

    /** `update_to`: move to the key of `symbol` along the table's route,
        handing every step to the caller (here: returning them in order in
        `moves`). From a key of the pad the impossible-move arm and the
        refusals of `update` never fire. */
    method UpdateTo(symbol: DirectionalSymbol, wiggle: bool) returns (r: Result<()>, moves: seq<Direction>)
      requires Valid()
      modifies this
      ensures Valid() && r.Ok?
      ensures current == DirectionalCoordinates(symbol)
      ensures Leg(old(current), current, wiggle) == Ok(moves)
    {
      moves := [];
      var target := DirectionalCoordinates(symbol);
      if current != target {
        var route := DirectionalRoute(current, target, wiggle);
        DirectionalLegWalks(current, target, wiggle);
        if route.Err? {
          assert false;
        }
        var i := 0;
        while i < |route.value|
          invariant 0 <= i <= |route.value| && moves == route.value[..i]
          invariant Walk(DirectionalPad, current, route.value[i..]) == Some(target)
        {
          var d := route.value[i];
          assert route.value[i..][1..] == route.value[i + 1..];
          var u := Update(d);
          if u.Err? {
            assert false;
          }
          moves := moves + [d];
          i := i + 1;
        }
        assert route.value[..i] == route.value;
      }
      return Ok(()), moves;
    }
  }

  // --------------------------------------------------------------- levels

  /** The button presses of one directional level as symbols. */
  function Arrows(ds: seq<Direction>): (r: seq<DirectionalSymbol>)
    ensures |r| == |ds| && forall i :: 0 <= i < |ds| ==> r[i] == Push(ds[i])
    decreases |ds|
  {
    if ds == [] then [] else [Push(ds[0])] + Arrows(ds[1..])
  }

  /** `prefix` in front of a successful result. */
  function Prefixed<T>(prefix: seq<T>, r: Result<seq<T>>): Result<seq<T>>
  {
    match r
    case Ok(s) => Ok(prefix + s)
    case Err(m) => Err(m)
  }

  lemma PrefixedTwice<T>(a: seq<T>, b: seq<T>, r: Result<seq<T>>)
    ensures Prefixed(a, Prefixed(b, r)) == Prefixed(a + b, r)
  {
    if r.Ok? {
      assert a + (b + r.value) == a + b + r.value;
    }
  }

  lemma PrefixedNothing<T>(r: Result<seq<T>>)
    ensures Prefixed([], r) == r
  {
    if r.Ok? {
      assert [] + r.value == r.value;
    }
  }

  /** The character-to-symbol step of `solve`: digits and A, any other
      character is an error. */
  function NumericSymbolOf(c: char): (r: Result<NumericSymbol>)
    ensures r.Ok? <==> IsDigit(c) || c == 'A'
    ensures r.Ok? ==> IsNumericKey(r.value)
    ensures r.Err? ==> r.msg == "illegal character: " + [c]
  {
    if '0' <= c <= '9' then Ok(Digit(c))
    else if c == 'A' then Ok(Accept)
    else Err("illegal character: " + [c])
  }

  /** The presses on the first directional pad that type `code` on the
      numeric pad from `at`: each character's route, then A. */
  function NumericPresses(code: string, at: Point): Result<seq<DirectionalSymbol>>
    decreases |code|
  {
    if code == [] then Ok([])
    else
      var symbol :- NumericSymbolOf(code[0]);
      var to :- NumericCoordinates(symbol);
      var rest :- NumericPresses(code[1..], to);
      Ok(Arrows(NumericRoute(at, to)) + [Activate] + rest)
  }

  /** The presses one directional pad further out that type `symbols`
      from `at`: each symbol's leg, then A. */
  function DirectionalPresses(symbols: seq<DirectionalSymbol>, at: Point, wiggle: bool): Result<seq<DirectionalSymbol>>
    decreases |symbols|
  {
    if symbols == [] then Ok([])
    else
      var to := DirectionalCoordinates(symbols[0]);
      var leg :- Leg(at, to, wiggle);
      var rest :- DirectionalPresses(symbols[1..], to, wiggle);
      Ok(Arrows(leg) + [Activate] + rest)
  }

  /** One character of the numeric level: its route, A, then the rest. */
  lemma NumericPressesStep(code: string, at: Point, symbol: NumericSymbol, to: Point)
    requires code != [] && NumericSymbolOf(code[0]) == Ok(symbol) && NumericCoordinates(symbol) == Ok(to)
    ensures NumericPresses(code, at) == Prefixed(Arrows(NumericRoute(at, to)) + [Activate], NumericPresses(code[1..], to))
  {
  }

  /** One symbol of a directional level: its leg, A, then the rest. */
  lemma DirectionalPressesStep(symbols: seq<DirectionalSymbol>, at: Point, wiggle: bool, leg: seq<Direction>)
    requires symbols != [] && Leg(at, DirectionalCoordinates(symbols[0]), wiggle) == Ok(leg)
    ensures DirectionalPresses(symbols, at, wiggle)
      == Prefixed(Arrows(leg) + [Activate], DirectionalPresses(symbols[1..], DirectionalCoordinates(symbols[0]), wiggle))
  {
  }

  /** Replays presses on a pad from `at`: an arrow moves the cursor (None
      as soon as it leaves the pad or lands on the gap), A records the
      point under the cursor. The points recorded, in order. */
  function Pressed(pad: Pad, presses: seq<DirectionalSymbol>, at: Point): Option<seq<Point>>
    decreases |presses|
  {
    if presses == [] then Some([])
    else match presses[0]
      case Activate =>
        (match Pressed(pad, presses[1..], at)
         case None => None
         case Some(keys) => Some([at] + keys))
      case Push(d) =>
        if OnPad(pad, Move(at, d)) then Pressed(pad, presses[1..], Move(at, d)) else None
  }

  lemma {:induction false} PressedAfterWalk(pad: Pad, at: Point, ds: seq<Direction>, rest: seq<DirectionalSymbol>)
    requires Walk(pad, at, ds).Some?
    ensures Pressed(pad, Arrows(ds) + rest, at) == Pressed(pad, rest, Walk(pad, at, ds).value)
    decreases |ds|
  {
    if ds == [] {
      assert Arrows(ds) + rest == rest;
    } else {
      var presses := Arrows(ds) + rest;
      assert presses[0] == Push(ds[0]) && presses[1..] == Arrows(ds[1..]) + rest;
      assert OnPad(pad, Move(at, ds[0]));
      assert Pressed(pad, presses, at) == Pressed(pad, presses[1..], Move(at, ds[0]));
      PressedAfterWalk(pad, Move(at, ds[0]), ds[1..], rest);
    }
  }

  /** A route that ends on `to`, then A: the replay records `to` and goes on from there. */
  lemma PressedKey(pad: Pad, at: Point, ds: seq<Direction>, rest: seq<DirectionalSymbol>, to: Point)
    requires Walk(pad, at, ds) == Some(to) && Pressed(pad, rest, to).Some?
    ensures Pressed(pad, Arrows(ds) + [Activate] + rest, at) == Some([to] + Pressed(pad, rest, to).value)
  {
    PressedAfterWalk(pad, at, ds, [Activate] + rest);
    assert Arrows(ds) + [Activate] + rest == Arrows(ds) + ([Activate] + rest);
    var presses := [Activate] + rest;
    assert presses[0] == Activate && presses[1..] == rest;
  }

  /** Every character is a digit or A. */
  predicate ValidCode(code: string)
  {
    forall i :: 0 <= i < |code| ==> IsDigit(code[i]) || code[i] == 'A'
  }

  /** The keys `keys` read, on the numeric pad, as the characters of `code`. */
  ghost predicate TypesCode(keys: seq<Point>, code: string)
  {
    |keys| == |code| && forall i :: 0 <= i < |keys| ==> NumericAt(keys[i]) == NumericSymbolOf(code[i])
  }

  /** The keys `keys` read, on a directional pad, as `symbols`. */
  ghost predicate TypesSymbols(keys: seq<Point>, symbols: seq<DirectionalSymbol>)
  {
    |keys| == |symbols| && forall i :: 0 <= i < |keys| ==> DirectionalAt(keys[i]) == Ok(symbols[i])
  }

  /** The numeric level succeeds exactly on codes of digits and A, and the
      presses it builds, replayed on the numeric pad, stay off the gap and
      type the code. */
  lemma {:induction false} NumericRoundTrip(code: string, at: Point)
    requires OnNumeric(at)
    ensures NumericPresses(code, at).Ok? <==> ValidCode(code)
    ensures NumericPresses(code, at).Ok? ==>
      var keys := Pressed(NumericPad, NumericPresses(code, at).value, at);
      keys.Some? && TypesCode(keys.value, code)
    decreases |code|
  {
    if code != [] {
      var symbol := NumericSymbolOf(code[0]);
      assert ValidCode(code) <==> symbol.Ok? && ValidCode(code[1..]) by {
        assert forall i :: 0 < i < |code| ==> code[i] == code[1..][i - 1];
      }
      if symbol.Ok? {
        var to := NumericCoordinates(symbol.value).value;
        NumericRoundTrip(code[1..], to);
        if NumericPresses(code[1..], to).Ok? {
          var rest := NumericPresses(code[1..], to).value;
          var route := NumericRoute(at, to);
          NumericRouteWalks(at, to);
          NumericPressesStep(code, at, symbol.value, to);
          PressedKey(NumericPad, at, route, rest, to);
          var keys := Pressed(NumericPad, rest, to).value;
          assert TypesCode([to] + keys, code) by {
            forall i | 0 <= i < |code|
              ensures NumericAt(([to] + keys)[i]) == NumericSymbolOf(code[i])
            {
              if i > 0 {
                assert ([to] + keys)[i] == keys[i - 1] && code[i] == code[1..][i - 1];
              }
            }
          }
        }
      }
    }
  }

  /** A directional level never fails from a key, and the presses it
      builds, replayed on the pad one further out, stay off the gap and
      type the symbols. */
  lemma {:induction false} DirectionalRoundTrip(symbols: seq<DirectionalSymbol>, at: Point, wiggle: bool)
    requires OnDirectional(at)
    ensures DirectionalPresses(symbols, at, wiggle).Ok?
    ensures var keys := Pressed(DirectionalPad, DirectionalPresses(symbols, at, wiggle).value, at);
      keys.Some? && TypesSymbols(keys.value, symbols)
    decreases |symbols|
  {
    if symbols != [] {
      var to := DirectionalCoordinates(symbols[0]);
      DirectionalLegWalks(at, to, wiggle);
      DirectionalRoundTrip(symbols[1..], to, wiggle);
      var leg := Leg(at, to, wiggle).value;
      var rest := DirectionalPresses(symbols[1..], to, wiggle).value;
      DirectionalPressesStep(symbols, at, wiggle, leg);
      PressedKey(DirectionalPad, at, leg, rest, to);
      var keys := Pressed(DirectionalPad, rest, to).value;
      assert TypesSymbols([to] + keys, symbols) by {
        DirectionalCoordinatesInverse(symbols[0]);
        forall i | 0 <= i < |symbols|
          ensures DirectionalAt(([to] + keys)[i]) == Ok(symbols[i])
        {
          if i > 0 {
            assert ([to] + keys)[i] == keys[i - 1] && symbols[i] == symbols[1..][i - 1];
          }
        }
      }
    }
  }

  /** What `solve` answers: the length of the hand-pressed sequence, three
      levels out from the code. */
  function Presses(code: string): Result<nat>
  {
    var third :- NumericPresses(code, Point(2, 3));
    var second :- DirectionalPresses(third, Point(2, 0), false);
    var first :- DirectionalPresses(second, Point(2, 0), true);
    Ok(|first|)
  }

  /** `solve` succeeds exactly on codes of digits and A; then the sequence
      pressed by hand, replayed on the outer directional pad, types the
      second level; that, replayed on the middle pad, types the third; and
      that, replayed on the numeric pad, types the code. */
  lemma SolveRoundTrip(code: string)
    ensures Presses(code).Ok? <==> ValidCode(code)
    ensures ValidCode(code) ==>
      var third := NumericPresses(code, Point(2, 3)).value;
      var second := DirectionalPresses(third, Point(2, 0), false).value;
      var first := DirectionalPresses(second, Point(2, 0), true).value;
      && Presses(code) == Ok(|first|)
      && Pressed(DirectionalPad, first, Point(2, 0)).Some?
      && TypesSymbols(Pressed(DirectionalPad, first, Point(2, 0)).value, second)
      && Pressed(DirectionalPad, second, Point(2, 0)).Some?
      && TypesSymbols(Pressed(DirectionalPad, second, Point(2, 0)).value, third)
      && Pressed(NumericPad, third, Point(2, 3)).Some?
      && TypesCode(Pressed(NumericPad, third, Point(2, 3)).value, code)
  {
    NumericRoundTrip(code, Point(2, 3));
    if ValidCode(code) {
      var third := NumericPresses(code, Point(2, 3)).value;
      DirectionalRoundTrip(third, Point(2, 0), false);
      var second := DirectionalPresses(third, Point(2, 0), false).value;
      DirectionalRoundTrip(second, Point(2, 0), true);
    }
  }

  /** The first loop of `solve`: type `code` on a fresh numeric keypad,
      recording each emitted direction and then A. */
  method NumericLevel(code: string) returns (r: Result<seq<DirectionalSymbol>>)
    ensures r == NumericPresses(code, Point(2, 3))
  {
    var keypad := new NumericKeypad();
    var presses: seq<DirectionalSymbol> := [];
    var i := 0;
    assert code[i..] == code;
    PrefixedNothing(NumericPresses(code, keypad.current));
    while i < |code|
      invariant 0 <= i <= |code| && keypad.Valid()
      invariant NumericPresses(code, Point(2, 3)) == Prefixed(presses, NumericPresses(code[i..], keypad.current))
    {
      assert code[i..][0] == code[i] && code[i..][1..] == code[i + 1..];
      var symbol := NumericSymbolOf(code[i]);
      if symbol.Err? {
        assert NumericPresses(code[i..], keypad.current) == Err(symbol.msg);
        return Err(symbol.msg);
      }
      ghost var at := keypad.current;
      var u, moves := keypad.UpdateTo(symbol.value);
      if u.Err? {
        assert false;
      }
      NumericPressesStep(code[i..], at, symbol.value, keypad.current);
      PrefixedTwice(presses, Arrows(moves) + [Activate], NumericPresses(code[i + 1..], keypad.current));
      presses := presses + (Arrows(moves) + [Activate]);
      i := i + 1;
    }
    assert code[i..] == [] && presses + [] == presses;
    return Ok(presses);
  }

  /** The second and third loops of `solve`: type `symbols` on a fresh
      directional keypad, recording each emitted direction and then A. */
  method DirectionalLevel(symbols: seq<DirectionalSymbol>, wiggle: bool) returns (presses: seq<DirectionalSymbol>)
    ensures DirectionalPresses(symbols, Point(2, 0), wiggle) == Ok(presses)
  {
    var keypad := new DirectionalKeypad();
    presses := [];
    var i := 0;
    assert symbols[i..] == symbols;
    PrefixedNothing(DirectionalPresses(symbols, keypad.current, wiggle));
    while i < |symbols|
      invariant 0 <= i <= |symbols| && keypad.Valid()
      invariant DirectionalPresses(symbols, Point(2, 0), wiggle) == Prefixed(presses, DirectionalPresses(symbols[i..], keypad.current, wiggle))
    {
      assert symbols[i..][0] == symbols[i] && symbols[i..][1..] == symbols[i + 1..];
      ghost var at := keypad.current;
      var u, moves := keypad.UpdateTo(symbols[i], wiggle);
      DirectionalPressesStep(symbols[i..], at, wiggle, moves);
      PrefixedTwice(presses, Arrows(moves) + [Activate], DirectionalPresses(symbols[i + 1..], keypad.current, wiggle));
      presses := presses + (Arrows(moves) + [Activate]);
      i := i + 1;
    }
    assert symbols[i..] == [] && presses + [] == presses;
  }

  /** `solve`: the numeric level from the code, the middle directional
      level without the wiggle rule, the outer one with it, and the length
      of the outermost sequence. */
  method Solve(sequence: string) returns (r: Result<nat>)
    ensures r == Presses(sequence)
    ensures r.Ok? <==> ValidCode(sequence)
  {
    SolveRoundTrip(sequence);
    var third := NumericLevel(sequence);
    if third.Err? {
      return Err(third.msg);
    }
    var second := DirectionalLevel(third.value, false);
    var first := DirectionalLevel(second, true);
    return Ok(|first|);
  }

  // ------------------------------------------------------------ the file

  /** The line shape `^([0-9]+)A$`: one or more digits, then A. */
  predicate IsCodeLine(line: string)
  {
    |line| >= 2 && line[|line| - 1] == 'A' && AllDigits(line[..|line| - 1])
  }

  /** One line's share of the answer: the number of hand presses times the
      number before the A, read as a `u64`. */
  function Complexity(line: string): Result<nat>
  {
    if !IsCodeLine(line) then Err("regex failed: " + line)
    else
      var number :- ParseUnsigned(line[..|line| - 1], U64_LIMIT);
      var presses :- Presses(line);
      MulNonNegative(presses, number);
      Ok(presses * number)
  }

  /** A line has a share exactly when it has the code shape and its number
      fits a `u64`; the share is then the length of the hand-pressed
      sequence times that number. */
  lemma ComplexityOutcome(line: string)
    ensures Complexity(line).Ok? <==> IsCodeLine(line) && DigitsValue(line[..|line| - 1]) < U64_LIMIT
    ensures !IsCodeLine(line) ==> Complexity(line) == Err("regex failed: " + line)
    ensures Complexity(line).Ok? ==>
      Presses(line).Ok? && Complexity(line).value == Presses(line).value * DigitsValue(line[..|line| - 1])
  {
    if IsCodeLine(line) {
      assert ValidCode(line) by {
        forall i | 0 <= i < |line|
          ensures IsDigit(line[i]) || line[i] == 'A'
        {
          if i < |line| - 1 {
            assert line[..|line| - 1][i] == line[i];
          }
        }
      }
      CodesPress(line);
    }
  }

  /** Every code of digits and A can be typed. */
  lemma CodesPress(code: string)
    requires ValidCode(code)
    ensures Presses(code).Ok?
  {
    SolveRoundTrip(code);
  }

  /** The answer after the first `n` lines, each line's share given by
      `share`, summed in file order: the running sum, or the error of the
      first line without a share. */
  function Running(lines: seq<string>, n: nat, share: string -> Result<nat>): Result<nat>
    requires n <= |lines|
  {
    if n == 0 then Ok(0)
    else
      var before :- Running(lines, n - 1, share);
      var last :- share(lines[n - 1]);
      Ok(before + last)
  }

  /** The answer for the code lines. */
  function Total(lines: seq<string>): Result<nat>
  {
    Running(lines, |lines|, Complexity)
  }

  /** One more line with a share adds it to the running sum. */
  lemma RunningStep(lines: seq<string>, n: nat, share: string -> Result<nat>, before: nat, last: nat)
    requires n < |lines| && Running(lines, n, share) == Ok(before) && share(lines[n]) == Ok(last)
    ensures Running(lines, n + 1, share) == Ok(before + last)
  {
  }

  /** One more line without a share ends the running sum with its error. */
  lemma RunningStops(lines: seq<string>, n: nat, share: string -> Result<nat>, msg: string)
    requires n < |lines| && Running(lines, n, share).Ok? && share(lines[n]) == Err(msg)
    ensures Running(lines, |lines|, share) == Err(msg)
  {
    RunningStaysFailed(lines, n + 1, |lines|, share);
  }

  /** Once the running sum has failed it stays failed with the same error. */
  lemma {:induction false} RunningStaysFailed(lines: seq<string>, n: nat, m: nat, share: string -> Result<nat>)
    requires n <= m <= |lines| && Running(lines, n, share).Err?
    ensures Running(lines, m, share) == Running(lines, n, share)
    decreases m - n
  {
    if n < m {
      RunningStaysFailed(lines, n, m - 1, share);
    }
  }

  /** The answer exists exactly when every line has a share, and is then the
      sum of the shares in file order; otherwise it is the first failing
      line's error. */
  lemma TotalOutcome(lines: seq<string>)
    ensures Total(lines).Ok? <==> forall i :: 0 <= i < |lines| ==> Complexity(lines[i]).Ok?
    ensures Total(lines).Ok? ==> Collect(lines, Complexity).Ok? && Total(lines).value == Sum(Collect(lines, Complexity).value)
    ensures Total(lines).Err? ==> Collect(lines, Complexity).Err? && Total(lines).msg == Collect(lines, Complexity).msg
  {
    RunningOutcome(lines, |lines|, Complexity);
    assert lines[..|lines|] == lines;
  }

  lemma {:induction false} RunningOutcome(lines: seq<string>, n: nat, share: string -> Result<nat>)
    requires n <= |lines|
    ensures Running(lines, n, share).Ok? <==> forall i :: 0 <= i < n ==> share(lines[i]).Ok?
    ensures Running(lines, n, share).Ok? ==>
      Collect(lines[..n], share).Ok? && Running(lines, n, share).value == Sum(Collect(lines[..n], share).value)
    ensures Running(lines, n, share).Err? ==>
      Collect(lines[..n], share).Err? && Running(lines, n, share).msg == Collect(lines[..n], share).msg
  {
    if n > 0 {
      RunningOutcome(lines, n - 1, share);
      CollectSnoc(lines[..n - 1], lines[n - 1], share);
      assert lines[..n - 1] + [lines[n - 1]] == lines[..n];
      if Running(lines, n - 1, share).Ok? && share(lines[n - 1]).Ok? {
        SumAppend(Collect(lines[..n - 1], share).value, [share(lines[n - 1]).value]);
      }
    }
  }

  /** Collecting one more line appends its share, or fails with its error
      if every earlier line had a share. */
  lemma {:induction false} CollectSnoc(lines: seq<string>, line: string, share: string -> Result<nat>)
    ensures Collect(lines, share).Err? ==>
      Collect(lines + [line], share).Err? && Collect(lines + [line], share).msg == Collect(lines, share).msg
    ensures Collect(lines, share).Ok? && share(line).Err? ==> Collect(lines + [line], share) == Err(share(line).msg)
    ensures Collect(lines, share).Ok? && share(line).Ok? ==>
      Collect(lines + [line], share) == Ok(Collect(lines, share).value + [share(line).value])
  {
    if lines != [] {
      assert (lines + [line])[0] == lines[0] && (lines + [line])[1..] == lines[1..] + [line];
      CollectSnoc(lines[1..], line, share);
      if Collect(lines, share).Ok? && share(line).Ok? {
        var first := share(lines[0]).value;
        var rest := Collect(lines[1..], share).value;
        assert [first] + (rest + [share(line).value]) == ([first] + rest) + [share(line).value];
      }
    } else {
      assert lines + [line] == [line];
      assert [line][1..] == [];
      if share(line).Ok? {
        assert [share(line).value] + [] == [] + [share(line).value];
      }
    }
  }

  /** The body of `do_it`'s loop for one line: the code shape, its number
      and the presses of `solve`. */
  method LineShare(line: string) returns (r: Result<nat>)
    ensures r == Complexity(line)
  {
    if !IsCodeLine(line) {
      return Err("regex failed: " + line);
    }
    var number := ParseUnsigned(line[..|line| - 1], U64_LIMIT);
    if number.Err? {
      return Err(number.msg);
    }
    var presses := Solve(line);
    if presses.Err? {
      return Err(presses.msg);
    }
    MulNonNegative(presses.value, number.value);
    return Ok(presses.value * number.value);
  }

  /** One round of `do_it`'s loop: the line's share added to the sum so far,
      or the line's error. */
  method AddShare(codes: seq<string>, i: nat, result: nat) returns (next: Result<nat>)
    requires i < |codes| && Running(codes, i, Complexity).Ok? && Running(codes, i, Complexity).value == result
    ensures next.Ok? <==> Running(codes, i + 1, Complexity).Ok?
    ensures next.Ok? ==> next.value == Running(codes, i + 1, Complexity).value
    ensures next.Err? ==> next.msg == Running(codes, i + 1, Complexity).msg
  {
    var share := LineShare(codes[i]);
    if share.Err? {
      return Err(share.msg);
    }
    RunningStep(codes, i, Complexity, result, share.value);
    return Ok(result + share.value);
  }

  /** `do_it` after reading the file: each trimmed, non-blank line's share,
      summed, stopping at the first line without one. */
  method DoIt(lines: seq<string>) returns (r: Result<nat>)
    ensures r == Total(NonBlankLines(lines))
  {
    var codes := NonBlankLines(lines);
    var result: nat := 0;
    var i := 0;
    while i < |codes|
      invariant 0 <= i <= |codes|
      invariant Running(codes, i, Complexity).Ok? && Running(codes, i, Complexity).value == result
    {
      var next := AddShare(codes, i, result);
      if next.Err? {
        RunningStaysFailed(codes, i + 1, |codes|, Complexity);
        return Err(next.msg);
      }
      result := next.value;
      i := i + 1;
    }
    return Ok(result);
  }
}
