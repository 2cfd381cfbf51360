/** Warehouse robot, part two: every map cell is twice as wide, a box has
    a left and a right half, and a box pushed up or down may push the two
    boxes resting on its halves. The answer sums the GPS coordinates of the
    left halves. */
module Day15b {
  import opened Common
  import opened Grid2D
  import opened Text
  import Day15a

  datatype Cell = Empty | BoxLeft | BoxRight | Wall

  /** The warehouse as a value: `cells` row by row, and the robot. */
  datatype Warehouse = Warehouse(width: nat, height: nat, cells: seq<Cell>, robot: Point)

  /** `get`: a cell of the grid, and Wall anywhere off it. */
  function Get(width: nat, height: nat, cells: seq<Cell>, p: Point): (c: Cell)
    requires |cells| == width * height
    ensures InBounds(width, height, p) ==> 0 <= Index(width, p) < |cells| && c == cells[Index(width, p)]
    ensures !InBounds(width, height, p) ==> c == Wall
  {
    if InBounds(width, height, p) then IndexBounds(width, height, p); cells[Index(width, p)] else Wall
  }

  /** Reading a cell after a write. */
  lemma GetPut(width: nat, height: nat, cells: seq<Cell>, p: Point, value: Cell, q: Point)
    requires |cells| == width * height && InBounds(width, height, p)
    ensures Get(width, height, Put(width, height, cells, p, value), q)
      == if q == p then value else Get(width, height, cells, q)
  {
    if InBounds(width, height, q) && q != p {
      Day15a.IndexInjectiveNot(width, height, p, q);
    }
  }

  /** A write trades one occurrence of the old cell for the new one. */
  lemma PutMultiset(width: nat, height: nat, cells: seq<Cell>, p: Point, value: Cell)
    requires |cells| == width * height && InBounds(width, height, p)
    ensures multiset(Put(width, height, cells, p, value))
      == multiset(cells) - multiset{Get(width, height, cells, p)} + multiset{value}
  {
  }

  /** `set`: a point off the grid, or a wall, cannot be written. */
  function SetCell(width: nat, height: nat, cells: seq<Cell>, p: Point, value: Cell): (r: Result<seq<Cell>>)
    requires |cells| == width * height
    ensures r.Ok? <==> Get(width, height, cells, p) != Wall
    ensures r.Ok? ==> InBounds(width, height, p) && r.value == Put(width, height, cells, p, value)
  {
    if !InBounds(width, height, p) then Err("set out of bounds")
    else if Get(width, height, cells, p) == Wall then Err("can't update cell that is a wall")
    else Ok(Put(width, height, cells, p, value))
  }

  /** The cell to the right of `p`. */
  function RightOf(p: Point): Point
  {
    Point(p.x + 1, p.y)
  }

  /** The left half of the box of which `p` holds the `half`. */
  function LeftHalf(p: Point, half: Cell): Point
  {
    if half == BoxLeft then p else Point(p.x - 1, p.y)
  }

  /** The four writes that move the box whose left half is at `left` one
      step in direction `d`: both halves emptied, then both written one
      step on. */
  function MoveBox(width: nat, height: nat, cells: seq<Cell>, left: Point, d: Direction): (r: Result<seq<Cell>>)
    requires |cells| == width * height
    ensures r.Ok? ==> |r.value| == |cells|
  {
    var right := RightOf(left);
    var emptiedLeft :- SetCell(width, height, cells, left, Empty);
    var emptied :- SetCell(width, height, emptiedLeft, right, Empty);
    var placedLeft :- SetCell(width, height, emptied, Step(left, d), BoxLeft);
    SetCell(width, height, placedLeft, Step(right, d), BoxRight)
  }

  /** `push_box_at`: an empty cell answers true and a wall false, both
      without change. A box half first pushes what is ahead of its box (to
      the side: the one cell past the box; up or down: the cells past both
      halves, restoring the grid as it was when either of these fails),
      and then moves its box. The boolean says whether the cell is free. */
  function PushBox(width: nat, height: nat, cells: seq<Cell>, p: Point, d: Direction): (r: Result<(bool, seq<Cell>)>)
    requires |cells| == width * height
    ensures r.Ok? ==> |r.value.1| == |cells|
    ensures Get(width, height, cells, p) == Empty ==> r == Ok((true, cells))
    ensures Get(width, height, cells, p) == Wall ==> r == Ok((false, cells))
    decreases if InBounds(width, height, p) then Day15a.StepsLeft(width, height, p, d) else 0
  {
    var here := Get(width, height, cells, p);
    if here == Empty then Ok((true, cells))
    else if here == Wall then Ok((false, cells))
    else
      var left := LeftHalf(p, here);
      var right := RightOf(left);
      if d == Left || d == Right then
        var next := if d == Left then Step(left, d) else Step(right, d);
        var ahead :- PushBox(width, height, cells, next, d);
        if !ahead.0 then Ok((false, ahead.1))
        else
          var moved :- MoveBox(width, height, ahead.1, left, d);
          Ok((true, moved))
      else
        var first :- PushBox(width, height, cells, Step(left, d), d);
        var second :- PushBox(width, height, first.1, Step(right, d), d);
        if !first.0 || !second.0 then Ok((false, cells))
        else
          var moved :- MoveBox(width, height, second.1, left, d);
          Ok((true, moved))
  }

  /** A push that answers false leaves the grid exactly as it was: the
      sideways push by recursion, the vertical one by its restore. */
  lemma {:induction false} PushFalseUnchanged(width: nat, height: nat, cells: seq<Cell>, p: Point, d: Direction)
    requires |cells| == width * height
    ensures var r := PushBox(width, height, cells, p, d);
      r.Ok? && !r.value.0 ==> r.value.1 == cells
    decreases if InBounds(width, height, p) then Day15a.StepsLeft(width, height, p, d) else 0
  {
    var here := Get(width, height, cells, p);
    if (here == BoxLeft || here == BoxRight) && (d == Left || d == Right) {
      var left := LeftHalf(p, here);
      var next := if d == Left then Step(left, d) else Step(RightOf(left), d);
      PushFalseUnchanged(width, height, cells, next, d);
    }
  }

  /** Box halves come in pairs: a left half exactly where a right half
      follows it. */
  predicate PairAt(width: nat, height: nat, cells: seq<Cell>, p: Point)
    requires |cells| == width * height
  {
    Get(width, height, cells, p) == BoxLeft <==> Get(width, height, cells, RightOf(p)) == BoxRight
  }

  ghost predicate Paired(width: nat, height: nat, cells: seq<Cell>)
    requires |cells| == width * height
  {
    forall p {:trigger PairAt(width, height, cells, p)} :: PairAt(width, height, cells, p)
  }

  /** No wall appears, moves or disappears. */
  ghost predicate SameWalls(width: nat, height: nat, before: seq<Cell>, after: seq<Cell>)
    requires |before| == width * height && |after| == width * height
  {
    forall c :: Get(width, height, after, c) == Wall <==> Get(width, height, before, c) == Wall
  }

  /** How far `c` lies beyond `q` in direction `d`. */
  function Beyond(q: Point, c: Point, d: Direction): int
  {
    match d
    case Right => c.x - q.x
    case Left => q.x - c.x
    case Down => c.y - q.y
    case Up => q.y - c.y
  }

  /** Every cell that changed lies beyond `q` in direction `d`, or level
      with `q` and is now empty. */
  ghost predicate Ahead(width: nat, height: nat, before: seq<Cell>, after: seq<Cell>, q: Point, d: Direction)
    requires |before| == width * height && |after| == width * height
  {
    forall c :: Get(width, height, after, c) != Get(width, height, before, c) ==>
      Beyond(q, c, d) > 0 || (Beyond(q, c, d) == 0 && Get(width, height, after, c) == Empty)
  }

  /** Changes ahead of a point level with or beyond `q`, followed by
      changes ahead of `q`, are changes ahead of `q`. */
  lemma AheadCompose(width: nat, height: nat, a: seq<Cell>, b: seq<Cell>, c: seq<Cell>, first: Point, q: Point, d: Direction)
    requires |a| == width * height && |b| == width * height && |c| == width * height
    requires Ahead(width, height, a, b, first, d) && Beyond(q, first, d) >= 0 && Ahead(width, height, b, c, q, d)
    ensures Ahead(width, height, a, c, q, d)
  {
    forall x | Get(width, height, c, x) != Get(width, height, a, x)
      ensures Beyond(q, x, d) > 0 || (Beyond(q, x, d) == 0 && Get(width, height, c, x) == Empty)
    {
      assert Beyond(q, x, d) == Beyond(q, first, d) + Beyond(first, x, d);
    }
  }

  /** A sideways push starts at the half facing the robot: a push to the
      left at a right half, a push to the right at a left half. */
  predicate Leading(width: nat, height: nat, cells: seq<Cell>, q: Point, d: Direction)
    requires |cells| == width * height
  {
    (d == Left ==> Get(width, height, cells, q) != BoxLeft) &&
    (d == Right ==> Get(width, height, cells, q) != BoxRight)
  }

  /** What a push at `q` guarantees on a paired grid. */
  ghost predicate Outcome(width: nat, height: nat, before: seq<Cell>, q: Point, d: Direction, ok: bool, after: seq<Cell>)
    requires |before| == width * height
  {
    |after| == |before| && Paired(width, height, after) && SameWalls(width, height, before, after) &&
    Ahead(width, height, before, after, q, d) && multiset(after) == multiset(before) &&
    (ok ==> Get(width, height, after, q) == Empty) && (!ok ==> after == before)
  }

  /** The content of cell `x` once the box whose left half is at `left`
      has moved one step in direction `d`. */
  function Moved(width: nat, height: nat, cells: seq<Cell>, left: Point, d: Direction, x: Point): Cell
    requires |cells| == width * height
  {
    if x == Step(RightOf(left), d) then BoxRight
    else if x == Step(left, d) then BoxLeft
    else if x == left || x == RightOf(left) then Empty
    else Get(width, height, cells, x)
  }

  /** The box whose left half is at `left` can move one step in `d`: its
      halves are in place and each target is free or its own other half. */
  predicate MoveReady(width: nat, height: nat, cells: seq<Cell>, left: Point, d: Direction)
    requires |cells| == width * height
  {
    Get(width, height, cells, left) == BoxLeft && Get(width, height, cells, RightOf(left)) == BoxRight &&
    (Step(left, d) == RightOf(left) || Get(width, height, cells, Step(left, d)) == Empty) &&
    (Step(RightOf(left), d) == left || Get(width, height, cells, Step(RightOf(left), d)) == Empty)
  }

  /** The grid after the four writes of a move, when none of them fails. */
  function Written(width: nat, height: nat, cells: seq<Cell>, left: Point, d: Direction): (r: seq<Cell>)
    requires |cells| == width * height && MoveReady(width, height, cells, left, d)
    ensures |r| == |cells|
  {
    var right, a, b := RightOf(left), Step(left, d), Step(RightOf(left), d);
    Put(width, height, Put(width, height, Put(width, height, Put(width, height, cells, left, Empty), right, Empty), a, BoxLeft), b, BoxRight)
  }

  /** What each write finds: the box's halves, then free cells. */
  lemma MoveBoxFinds(width: nat, height: nat, cells: seq<Cell>, left: Point, d: Direction)
    requires |cells| == width * height && MoveReady(width, height, cells, left, d)
    ensures var right, a, b := RightOf(left), Step(left, d), Step(RightOf(left), d);
      var c1 := Put(width, height, cells, left, Empty);
      var c2 := Put(width, height, c1, right, Empty);
      InBounds(width, height, right) && InBounds(width, height, a) && InBounds(width, height, b) &&
      Get(width, height, c1, right) == BoxRight && Get(width, height, c2, a) == Empty &&
      Get(width, height, Put(width, height, c2, a, BoxLeft), b) == Empty
  {
    var right, a, b := RightOf(left), Step(left, d), Step(RightOf(left), d);
    var c1 := Put(width, height, cells, left, Empty);
    var c2 := Put(width, height, c1, right, Empty);
    GetPut(width, height, cells, left, Empty, right);
    GetPut(width, height, c1, right, Empty, a);
    GetPut(width, height, cells, left, Empty, a);
    GetPut(width, height, c2, a, BoxLeft, b);
    GetPut(width, height, c1, right, Empty, b);
    GetPut(width, height, cells, left, Empty, b);
  }

  /** None of the move's writes fails. */
  lemma MoveBoxWrites(width: nat, height: nat, cells: seq<Cell>, left: Point, d: Direction)
    requires |cells| == width * height && MoveReady(width, height, cells, left, d)
    ensures MoveBox(width, height, cells, left, d) == Ok(Written(width, height, cells, left, d))
  {
    MoveBoxFinds(width, height, cells, left, d);
  }

  /** Taking out the two halves for two empty cells and then the two
      empty cells for the halves gives the multiset back. */
  lemma TradeBack(m: multiset<Cell>)
    requires BoxLeft in m && BoxRight in m
    ensures m - multiset{BoxLeft} + multiset{Empty} - multiset{BoxRight} + multiset{Empty}
      - multiset{Empty} + multiset{BoxLeft} - multiset{Empty} + multiset{BoxRight} == m
  {
  }

  /** The move trades the box's halves for two empty cells and back. */
  lemma WrittenMultiset(width: nat, height: nat, cells: seq<Cell>, left: Point, d: Direction)
    requires |cells| == width * height && MoveReady(width, height, cells, left, d)
    ensures multiset(Written(width, height, cells, left, d)) == multiset(cells)
  {
    MoveBoxFinds(width, height, cells, left, d);
    var right, a, b := RightOf(left), Step(left, d), Step(RightOf(left), d);
    var c1 := Put(width, height, cells, left, Empty);
    var c2 := Put(width, height, c1, right, Empty);
    var c3 := Put(width, height, c2, a, BoxLeft);
    PutMultiset(width, height, cells, left, Empty);
    PutMultiset(width, height, c1, right, Empty);
    PutMultiset(width, height, c2, a, BoxLeft);
    PutMultiset(width, height, c3, b, BoxRight);
    assert cells[Index(width, left)] in multiset(cells);
    assert cells[Index(width, right)] in multiset(cells);
    TradeBack(multiset(cells));
  }

  /** The moved grid is as `Moved` describes. */
  lemma WrittenCells(width: nat, height: nat, cells: seq<Cell>, left: Point, d: Direction, x: Point)
    requires |cells| == width * height && MoveReady(width, height, cells, left, d)
    ensures Get(width, height, Written(width, height, cells, left, d), x) == Moved(width, height, cells, left, d, x)
  {
    MoveBoxFinds(width, height, cells, left, d);
    var right, a, b := RightOf(left), Step(left, d), Step(RightOf(left), d);
    var c1 := Put(width, height, cells, left, Empty);
    var c2 := Put(width, height, c1, right, Empty);
    var c3 := Put(width, height, c2, a, BoxLeft);
    GetPut(width, height, c3, b, BoxRight, x);
    GetPut(width, height, c2, a, BoxLeft, x);
    GetPut(width, height, c1, right, Empty, x);
    GetPut(width, height, cells, left, Empty, x);
  }

  /** A moved box keeps every box half paired. */
  lemma MovedPaired(width: nat, height: nat, cells: seq<Cell>, m: seq<Cell>, left: Point, d: Direction)
    requires |cells| == width * height && |m| == width * height && Paired(width, height, cells)
    requires Get(width, height, cells, left) == BoxLeft
    requires Step(left, d) == RightOf(left) || Get(width, height, cells, Step(left, d)) == Empty
    requires Step(RightOf(left), d) == left || Get(width, height, cells, Step(RightOf(left), d)) == Empty
    requires forall x :: Get(width, height, m, x) == Moved(width, height, cells, left, d, x)
    ensures Paired(width, height, m)
  {
    var right := RightOf(left);
    var a, b := Step(left, d), Step(right, d);
    assert PairAt(width, height, cells, left);
    assert PairAt(width, height, cells, right);
    assert PairAt(width, height, cells, b);
    forall p ensures PairAt(width, height, m, p) {
      var r := RightOf(p);
      assert Get(width, height, m, p) == Moved(width, height, cells, left, d, p);
      assert Get(width, height, m, r) == Moved(width, height, cells, left, d, r);
      assert PairAt(width, height, cells, p);
      if p == a || p == b {
      } else if p == left || p == right {
      } else if r == a || r == left || r == right {
      }
    }
  }

  /** A moved box changes only its own cells and the cells one step on:
      no wall changes, the cells it left behind level with `q` are empty,
      and the others lie beyond `q`. */
  lemma MovedAhead(width: nat, height: nat, cells: seq<Cell>, m: seq<Cell>, left: Point, d: Direction, q: Point)
    requires |cells| == width * height && |m| == width * height
    requires Get(width, height, cells, left) == BoxLeft && Get(width, height, cells, RightOf(left)) == BoxRight
    requires Step(left, d) == RightOf(left) || Get(width, height, cells, Step(left, d)) == Empty
    requires Step(RightOf(left), d) == left || Get(width, height, cells, Step(RightOf(left), d)) == Empty
    requires forall x :: Get(width, height, m, x) == Moved(width, height, cells, left, d, x)
    requires q == left || q == RightOf(left)
    requires (d == Left ==> q == RightOf(left)) && (d == Right ==> q == left)
    ensures SameWalls(width, height, cells, m) && Ahead(width, height, cells, m, q, d)
    ensures Get(width, height, m, q) == Empty
  {
    assert Get(width, height, m, q) == Moved(width, height, cells, left, d, q);
  }

  /** Moving a box into free cells: no write fails, nothing but the box
      changes, and the halves stay paired. */
  lemma MoveBoxSound(width: nat, height: nat, cells: seq<Cell>, left: Point, d: Direction, q: Point)
    requires |cells| == width * height && Paired(width, height, cells)
    requires Get(width, height, cells, left) == BoxLeft
    requires Step(left, d) == RightOf(left) || Get(width, height, cells, Step(left, d)) == Empty
    requires Step(RightOf(left), d) == left || Get(width, height, cells, Step(RightOf(left), d)) == Empty
    requires q == left || q == RightOf(left)
    requires (d == Left ==> q == RightOf(left)) && (d == Right ==> q == left)
    ensures MoveBox(width, height, cells, left, d).Ok?
    ensures Outcome(width, height, cells, q, d, true, MoveBox(width, height, cells, left, d).value)
  {
    assert PairAt(width, height, cells, left);
    MoveBoxWrites(width, height, cells, left, d);
    WrittenMultiset(width, height, cells, left, d);
    var m := Written(width, height, cells, left, d);
    forall x ensures Get(width, height, m, x) == Moved(width, height, cells, left, d, x) {
      WrittenCells(width, height, cells, left, d, x);
    }
    MovedPaired(width, height, cells, m, left, d);
    MovedAhead(width, height, cells, m, left, d, q);
  }

  /** On a paired grid, a push from the half facing the robot never fails
      a write, keeps the halves paired and the walls in place, only
      rearranges cells, changes nothing behind the pushed cell, empties the
      pushed cell when it answers true, and changes nothing at all when it
      answers false. */
  lemma {:induction false} PushBoxSound(width: nat, height: nat, cells: seq<Cell>, q: Point, d: Direction)
    requires |cells| == width * height && Paired(width, height, cells) && Leading(width, height, cells, q, d)
    ensures PushBox(width, height, cells, q, d).Ok?
    ensures Outcome(width, height, cells, q, d, PushBox(width, height, cells, q, d).value.0, PushBox(width, height, cells, q, d).value.1)
    decreases if InBounds(width, height, q) then Day15a.StepsLeft(width, height, q, d) else 0, 1
  {
    var here := Get(width, height, cells, q);
    if here == BoxLeft || here == BoxRight {
      if d == Left || d == Right {
        PushSideways(width, height, cells, q, d);
      } else {
        PushUpDown(width, height, cells, q, d);
      }
    }
  }

  /** The sideways case: the box pushes the one cell past it, then moves. */
  lemma {:induction false} PushSideways(width: nat, height: nat, cells: seq<Cell>, q: Point, d: Direction)
    requires |cells| == width * height && Paired(width, height, cells) && Leading(width, height, cells, q, d)
    requires (d == Left || d == Right) && (Get(width, height, cells, q) == BoxLeft || Get(width, height, cells, q) == BoxRight)
    ensures PushBox(width, height, cells, q, d).Ok?
    ensures Outcome(width, height, cells, q, d, PushBox(width, height, cells, q, d).value.0, PushBox(width, height, cells, q, d).value.1)
    decreases if InBounds(width, height, q) then Day15a.StepsLeft(width, height, q, d) else 0, 0
  {
    var here := Get(width, height, cells, q);
    var left := LeftHalf(q, here);
    var right := RightOf(left);
    var next := if d == Left then Step(left, d) else Step(right, d);
    assert PairAt(width, height, cells, left);
    assert PairAt(width, height, cells, next);
    assert PairAt(width, height, cells, right);
    PushBoxSound(width, height, cells, next, d);
    var (ok, pushed) := PushBox(width, height, cells, next, d).value;
    if ok {
      assert Get(width, height, pushed, left) == Get(width, height, cells, left);
      assert Get(width, height, pushed, right) == Get(width, height, cells, right);
      MoveBoxSound(width, height, pushed, left, d, q);
      var moved := MoveBox(width, height, pushed, left, d).value;
      AheadCompose(width, height, cells, pushed, moved, next, q, d);
    }
  }

  /** The vertical case: the box pushes the cells past both halves, then
      moves, or the grid is restored. */
  lemma {:induction false} PushUpDown(width: nat, height: nat, cells: seq<Cell>, q: Point, d: Direction)
    requires |cells| == width * height && Paired(width, height, cells)
    requires (d == Up || d == Down) && (Get(width, height, cells, q) == BoxLeft || Get(width, height, cells, q) == BoxRight)
    ensures PushBox(width, height, cells, q, d).Ok?
    ensures Outcome(width, height, cells, q, d, PushBox(width, height, cells, q, d).value.0, PushBox(width, height, cells, q, d).value.1)
    decreases if InBounds(width, height, q) then Day15a.StepsLeft(width, height, q, d) else 0, 0
  {
    var here := Get(width, height, cells, q);
    var left := LeftHalf(q, here);
    var right := RightOf(left);
    var a, b := Step(left, d), Step(right, d);
    assert PairAt(width, height, cells, left);
    assert Get(width, height, cells, left) == BoxLeft && Get(width, height, cells, right) == BoxRight;
    PushBoxSound(width, height, cells, a, d);
    var first := PushBox(width, height, cells, a, d).value;
    PushBoxSound(width, height, first.1, b, d);
    var second := PushBox(width, height, first.1, b, d).value;
    VerticalResult(width, height, cells, q, d, first, second);
    if first.0 && second.0 {
      var moved := BothMoved(width, height, cells, first.1, second.1, left, q, d);
    } else {
      Unchanged(width, height, cells, q, d);
    }
  }

  /** A vertical push answers false with the grid restored when either
      push past the halves answers false, and otherwise moves the box. */
  lemma VerticalResult(width: nat, height: nat, cells: seq<Cell>, q: Point, d: Direction, first: (bool, seq<Cell>), second: (bool, seq<Cell>))
    requires |cells| == width * height && (d == Up || d == Down)
    requires Get(width, height, cells, q) == BoxLeft || Get(width, height, cells, q) == BoxRight
    requires var left := LeftHalf(q, Get(width, height, cells, q));
      PushBox(width, height, cells, Step(left, d), d) == Ok(first) && |first.1| == width * height &&
      PushBox(width, height, first.1, Step(RightOf(left), d), d) == Ok(second)
    ensures !(first.0 && second.0) ==> PushBox(width, height, cells, q, d) == Ok((false, cells))
    ensures var left := LeftHalf(q, Get(width, height, cells, q));
      first.0 && second.0 && MoveBox(width, height, second.1, left, d).Ok? ==>
      PushBox(width, height, cells, q, d) == Ok((true, MoveBox(width, height, second.1, left, d).value))
  {
  }

  /** Once the cells past both halves of a vertical box are cleared, the
      box moves, and the three steps together meet the outcome of a
      successful push at `q`. */
  lemma BothMoved(width: nat, height: nat, cells: seq<Cell>, first: seq<Cell>, second: seq<Cell>, left: Point, q: Point, d: Direction)
    returns (moved: seq<Cell>)
    requires |cells| == width * height && |first| == width * height && |second| == width * height
    requires d == Up || d == Down
    requires Get(width, height, cells, left) == BoxLeft && Get(width, height, cells, RightOf(left)) == BoxRight
    requires q == left || q == RightOf(left)
    requires Outcome(width, height, cells, Step(left, d), d, true, first)
    requires Outcome(width, height, first, Step(RightOf(left), d), d, true, second)
    ensures MoveBox(width, height, second, left, d) == Ok(moved)
    ensures Outcome(width, height, cells, q, d, true, moved)
  {
    var right := RightOf(left);
    var a, b := Step(left, d), Step(right, d);
    assert Get(width, height, first, left) == Get(width, height, cells, left);
    assert Get(width, height, second, left) == Get(width, height, first, left);
    assert Get(width, height, first, right) == Get(width, height, cells, right);
    assert Get(width, height, second, right) == Get(width, height, first, right);
    assert Get(width, height, second, a) == Empty by {
      assert Beyond(b, a, d) == 0;
    }
    MoveBoxSound(width, height, second, left, d, q);
    moved := MoveBox(width, height, second, left, d).value;
    AheadCompose(width, height, cells, first, second, a, b, d);
    AheadCompose(width, height, cells, second, moved, b, q, d);
    WallsCompose(width, height, cells, first, second);
    WallsCompose(width, height, cells, second, moved);
  }

  /** Walls kept twice are kept. */
  lemma WallsCompose(width: nat, height: nat, a: seq<Cell>, b: seq<Cell>, c: seq<Cell>)
    requires |a| == width * height && |b| == width * height && |c| == width * height
    requires SameWalls(width, height, a, b) && SameWalls(width, height, b, c)
    ensures SameWalls(width, height, a, c)
  {
    forall x ensures Get(width, height, c, x) == Wall <==> Get(width, height, a, x) == Wall {
      assert Get(width, height, c, x) == Wall <==> Get(width, height, b, x) == Wall;
    }
  }

  /** A push that changes nothing meets the outcome of a failed push. */
  lemma Unchanged(width: nat, height: nat, cells: seq<Cell>, q: Point, d: Direction)
    requires |cells| == width * height && Paired(width, height, cells)
    ensures Outcome(width, height, cells, q, d, false, cells)
  {
  }

  /** The grid holds `width * height` cells. */
  predicate Complete(w: Warehouse)
  {
    |w.cells| == w.width * w.height
  }

  /** A warehouse as the robot can meet it: complete, with paired box
      halves, and the robot on an empty cell of the grid. */
  ghost predicate Sound(w: Warehouse)
  {
    Complete(w) && Paired(w.width, w.height, w.cells) &&
    InBounds(w.width, w.height, w.robot) && Get(w.width, w.height, w.cells, w.robot) == Empty
  }

  /** `advance`: a box half ahead is pushed and the robot steps forward
      when the push answers true; an empty cell ahead is stepped on; a wall
      stops the robot. A failed write is an error. */
  function Advanced(w: Warehouse, d: Direction): (r: Result<Warehouse>)
    requires Complete(w)
    ensures r.Ok? ==> Complete(r.value) && r.value.width == w.width && r.value.height == w.height
  {
    var pos := Step(w.robot, d);
    var here := Get(w.width, w.height, w.cells, pos);
    if here == BoxLeft || here == BoxRight then
      var pushed :- PushBox(w.width, w.height, w.cells, pos, d);
      Ok(w.(cells := pushed.1, robot := if pushed.0 then pos else w.robot))
    else if here == Empty then Ok(w.(robot := pos))
    else Ok(w)
  }

  /** On a sound warehouse `advance` never fails and the warehouse stays
      sound, with its walls in place and its cells only rearranged; the
      robot steps forward exactly when the cell ahead is empty or the push
      there answers true, and otherwise nothing changes. */
  lemma AdvanceSound(w: Warehouse, d: Direction)
    requires Sound(w)
    ensures Advanced(w, d).Ok?
    ensures var r := Advanced(w, d).value;
      Sound(r) && SameWalls(w.width, w.height, w.cells, r.cells) && multiset(r.cells) == multiset(w.cells)
    ensures var r, pos := Advanced(w, d).value, Step(w.robot, d);
      var here := Get(w.width, w.height, w.cells, pos);
      (r.robot != w.robot <==>
        here == Empty || ((here == BoxLeft || here == BoxRight) && PushBox(w.width, w.height, w.cells, pos, d).value.0)) &&
      (r.robot == w.robot || r.robot == pos) &&
      (r.robot == w.robot ==> r == w)
  {
    var pos := Step(w.robot, d);
    var here := Get(w.width, w.height, w.cells, pos);
    assert PairAt(w.width, w.height, w.cells, pos);
    assert PairAt(w.width, w.height, w.cells, w.robot);
    assert Step(w.robot, d) != w.robot;
    if here == BoxLeft || here == BoxRight {
      PushBoxSound(w.width, w.height, w.cells, pos, d);
    }
  }

  /** The instruction characters, each one `advance`, in order; a
      character that is not an instruction is an error. */
  function Replay(w: Warehouse, moves: string): (r: Result<Warehouse>)
    requires Complete(w)
    ensures r.Ok? ==> Complete(r.value) && r.value.width == w.width && r.value.height == w.height
    decreases |moves|
  {
    if moves == [] then Ok(w)
    else
      var d := Day15a.DirectionOf(moves[0]);
      if d.None? then Err("unparsable direction")
      else
        var next :- Advanced(w, d.value);
        Replay(next, moves[1..])
  }

  /** From a sound warehouse, instructions only never fail, and the
      warehouse stays sound, with the same walls and the same cells
      rearranged. */
  lemma {:induction false} ReplaySound(w: Warehouse, moves: string)
    requires Sound(w) && Day15a.AllMoves(moves)
    ensures Replay(w, moves).Ok?
    ensures var r := Replay(w, moves).value;
      Sound(r) && SameWalls(w.width, w.height, w.cells, r.cells) && multiset(r.cells) == multiset(w.cells)
    decreases |moves|
  {
    if moves != [] {
      var d := Day15a.DirectionOf(moves[0]).value;
      AdvanceSound(w, d);
      var next := Advanced(w, d).value;
      assert Day15a.AllMoves(moves[1..]) by {
        forall i | 0 <= i < |moves| - 1 ensures Day15a.DirectionOf(moves[1..][i]).Some? {
          assert moves[1..][i] == moves[i + 1];
        }
      }
      ReplaySound(next, moves[1..]);
    }
  }

  /** The warehouse object: its cells are updated in place. */
  class State {
    var width: nat
    var height: nat
    var cells: seq<Cell>
    var robot: Point

    constructor (w: Warehouse)
      ensures Snapshot() == w
    {
      width, height, cells, robot := w.width, w.height, w.cells, w.robot;
    }

    function Snapshot(): Warehouse
      reads this
    {
      Warehouse(width, height, cells, robot)
    }

    /** `set`: write a cell, unless it is off the grid or a wall. */
    method Set(p: Point, value: Cell) returns (r: Result<()>)
      requires |cells| == width * height
      modifies this
      ensures width == old(width) && height == old(height) && robot == old(robot)
      ensures r.Ok? <==> SetCell(width, height, old(cells), p, value).Ok?
      ensures r.Ok? ==> cells == SetCell(width, height, old(cells), p, value).value
      ensures r.Err? ==> cells == old(cells)
    {
      if !InBounds(width, height, p) {
        return Err("set out of bounds");
      }
      IndexBounds(width, height, p);
      var i := p.y * width + p.x;
      if cells[i] == Wall {
        return Err("can't update cell that is a wall");
      }
      cells := cells[i := value];
      return Ok(());
    }

    /** `push_box_at`, writing the grid in place; the vertical case keeps a
        copy of the cells to restore. */
    method PushBoxAt(p: Point, d: Direction) returns (r: Result<bool>)
      requires |cells| == width * height
      modifies this
      ensures width == old(width) && height == old(height) && robot == old(robot) && |cells| == |old(cells)|
      ensures r.Ok? <==> PushBox(width, height, old(cells), p, d).Ok?
      ensures r.Ok? ==> r.value == PushBox(width, height, old(cells), p, d).value.0
      ensures r.Ok? ==> cells == PushBox(width, height, old(cells), p, d).value.1
      decreases if InBounds(width, height, p) then Day15a.StepsLeft(width, height, p, d) else 0
    {
      var here := Get(width, height, cells, p);
      if here == Empty {
        return Ok(true);
      }
      if here == Wall {
        return Ok(false);
      }
      var left := LeftHalf(p, here);
      var right := RightOf(left);
      if d == Left || d == Right {
        var ahead := PushBoxAt(if d == Left then Step(left, d) else Step(right, d), d);
        if ahead.Err? {
          return Err(ahead.msg);
        }
        if !ahead.value {
          return Ok(false);
        }
      } else {
        var backup := cells;
        var first := PushBoxAt(Step(left, d), d);
        if first.Err? {
          return Err(first.msg);
        }
        var second := PushBoxAt(Step(right, d), d);
        if second.Err? {
          return Err(second.msg);
        }
        if !first.value || !second.value {
          cells := backup;
          return Ok(false);
        }
      }
      r := MoveBoxAt(left, d);
    }

    /** The four `set` calls that end `push_box_at`. */
    method MoveBoxAt(left: Point, d: Direction) returns (r: Result<bool>)
      requires |cells| == width * height
      modifies this
      ensures width == old(width) && height == old(height) && robot == old(robot) && |cells| == |old(cells)|
      ensures r.Ok? <==> MoveBox(width, height, old(cells), left, d).Ok?
      ensures r.Ok? ==> r.value && cells == MoveBox(width, height, old(cells), left, d).value
    {
      var right := RightOf(left);
      var written := Set(left, Empty);
      if written.Err? {
        return Err(written.msg);
      }
      written := Set(right, Empty);
      if written.Err? {
        return Err(written.msg);
      }
      written := Set(Step(left, d), BoxLeft);
      if written.Err? {
        return Err(written.msg);
      }
      written := Set(Step(right, d), BoxRight);
      if written.Err? {
        return Err(written.msg);
      }
      return Ok(true);
    }

    /** `advance`. */
    method Advance(d: Direction) returns (r: Result<()>)
      requires |cells| == width * height
      modifies this
      ensures r.Ok? <==> Advanced(old(Snapshot()), d).Ok?
      ensures r.Ok? ==> Snapshot() == Advanced(old(Snapshot()), d).value
    {
      var pos := Step(robot, d);
      var here := Get(width, height, cells, pos);
      var moves := here == Empty;
      if here == BoxLeft || here == BoxRight {
        var pushed := PushBoxAt(pos, d);
        if pushed.Err? {
          return Err(pushed.msg);
        }
        moves := pushed.value;
      }
      if moves {
        robot := pos;
      }
      return Ok(());
    }

    /** `count_box_gps`: walk the rows and columns, adding 100 y + x for
        every left half. */
    method CountBoxGps() returns (result: nat)
      requires |cells| == width * height
      ensures result == Day15a.Gps(width, cells, BoxLeft)
    {
      result := 0;
      var i := 0;
      for y := 0 to height
        invariant i == y * width && result == Day15a.Gps(width, cells[..i], BoxLeft)
      {
        NextRow(y, width);
        RowsApart(y, height, width);
        for x := 0 to width
          invariant i == y * width + x && result == Day15a.Gps(width, cells[..i], BoxLeft)
        {
          assert cells[..i + 1][..i] == cells[..i];
          if cells[i] == BoxLeft {
            ModUnique(i, width, y, x);
            result := result + 100 * y + x;
          }
          i := i + 1;
        }
      }
      assert cells[..i] == cells;
    }
  }

  /** The instruction loop of `do_it`: one `advance` per character. */
  method Run(state: State, moves: string) returns (r: Result<()>)
    requires Complete(state.Snapshot())
    modifies state
    ensures r.Ok? <==> Replay(old(state.Snapshot()), moves).Ok?
    ensures r.Ok? ==> state.Snapshot() == Replay(old(state.Snapshot()), moves).value
  {
    ghost var start := state.Snapshot();
    for i := 0 to |moves|
      invariant Complete(state.Snapshot()) && Replay(start, moves) == Replay(state.Snapshot(), moves[i..])
    {
      assert moves[i..][1..] == moves[i + 1..];
      var d := Day15a.DirectionOf(moves[i]);
      if d.None? {
        return Err("unparsable direction");
      }
      var advanced := state.Advance(d.value);
      if advanced.Err? {
        return Err(advanced.msg);
      }
    }
    return Ok(());
  }

  /** The two wide cells a map cell of part one becomes. */
  function Halves(c: Day15a.Cell): (r: seq<Cell>)
    ensures |r| == 2
  {
    match c
    case Box => [BoxLeft, BoxRight]
    case Empty => [Empty, Empty]
    case Wall => [Wall, Wall]
  }

  /** The map characters of part two: each is read as in part one, twice
      as wide. */
  function WideOf(c: char): (r: Result<seq<Cell>>)
    ensures r.Ok? <==> Day15a.CellOf(c).Ok?
    ensures r.Ok? ==> r.value == Halves(Day15a.CellOf(c).value)
  {
    match c
    case 'O' => Ok([BoxLeft, BoxRight])
    case '.' => Ok([Empty, Empty])
    case '#' => Ok([Wall, Wall])
    case '@' => Ok([Empty, Empty])
    case _ => Err("unparsable map char")
  }

  /** Every cell of a row-major grid, doubled in place. */
  function WideCells(cells: seq<Day15a.Cell>): seq<Cell>
  {
    if cells == [] then [] else WideCells(cells[..|cells| - 1]) + Halves(cells[|cells| - 1])
  }

  /** Slot `i` of the narrow grid becomes slots `2 i` and `2 i + 1`. */
  lemma {:induction false} WideCellsIndex(cells: seq<Day15a.Cell>)
    ensures |WideCells(cells)| == 2 * |cells|
    ensures forall i :: 0 <= i < |cells| ==>
      WideCells(cells)[2 * i] == Halves(cells[i])[0] && WideCells(cells)[2 * i + 1] == Halves(cells[i])[1]
  {
    if cells != [] {
      var front := cells[..|cells| - 1];
      WideCellsIndex(front);
      forall i | 0 <= i < |front| ensures front[i] == cells[i] {
      }
    }
  }

  /** The robot's place on the doubled grid. */
  function Doubled(robot: Option<Point>): Option<Point>
  {
    match robot
    case None => None
    case Some(p) => Some(Point(p.x * 2, p.y))
  }

  /** A warehouse of part one, twice as wide. */
  function Widen(w: Day15a.Warehouse): Warehouse
  {
    Warehouse(w.width * 2, w.height, WideCells(w.cells), Doubled(Some(w.robot)).value)
  }

  /** The doubled grid is as large as its cells. */
  lemma WidenComplete(w: Day15a.Warehouse)
    requires |w.cells| == w.width * w.height
    ensures Complete(Widen(w))
  {
    WideCellsIndex(w.cells);
    assert (w.width * 2) * w.height == 2 * (w.width * w.height);
  }

  /** The point (x, y) of the doubled grid is half `x % 2` of the narrow
      cell (x / 2, y); off the grid it is a wall. */
  function WideAt(w: Day15a.Warehouse, p: Point): Cell
    requires |w.cells| == w.width * w.height
  {
    if InBounds(w.width * 2, w.height, p) then Halves(Day15a.CellAt(w.width, w.height, w.cells, Point(p.x / 2, p.y)))[p.x % 2]
    else Wall
  }

  /** Reading the doubled grid. */
  lemma WideGet(w: Day15a.Warehouse, p: Point)
    requires |w.cells| == w.width * w.height
    ensures Complete(Widen(w))
    ensures Get(w.width * 2, w.height, WideCells(w.cells), p) == WideAt(w, p)
  {
    WidenComplete(w);
    WideCellsIndex(w.cells);
    if InBounds(w.width * 2, w.height, p) {
      var q := Point(p.x / 2, p.y);
      WideIndex(w.width, w.height, p);
      IndexBounds(w.width, w.height, q);
      var i := Index(w.width, q);
      assert Day15a.CellAt(w.width, w.height, w.cells, q) == w.cells[i];
      if p.x % 2 == 0 {
        assert Index(w.width * 2, p) == 2 * i;
      } else {
        assert Index(w.width * 2, p) == 2 * i + 1;
      }
    }
  }

  /** Slot arithmetic of the doubled grid. */
  lemma WideIndex(width: nat, height: nat, p: Point)
    requires InBounds(width * 2, height, p)
    ensures InBounds(width, height, Point(p.x / 2, p.y))
    ensures Index(width * 2, p) == 2 * Index(width, Point(p.x / 2, p.y)) + p.x % 2
  {
    assert p.y * (width * 2) == 2 * (p.y * width);
  }

  /** Reading a part-one map twice as wide pairs every box's halves and
      keeps the robot on an empty cell. */
  lemma WidenSound(w: Day15a.Warehouse)
    requires Day15a.Sound(w)
    ensures Sound(Widen(w))
  {
    var v := Widen(w);
    WideGet(w, v.robot);
    forall p ensures PairAt(v.width, v.height, v.cells, p) {
      WidePair(w, p);
    }
  }

  /** A cell of the doubled grid is a left half exactly when the cell to
      its right is a right half. */
  lemma WidePair(w: Day15a.Warehouse, p: Point)
    requires |w.cells| == w.width * w.height
    ensures Complete(Widen(w)) && PairAt(w.width * 2, w.height, WideCells(w.cells), p)
  {
    var q := RightOf(p);
    WideGet(w, p);
    WideGet(w, q);
    if WideAt(w, p) == BoxLeft {
      assert InBounds(w.width * 2, w.height, p) && p.x % 2 == 0;
      assert q.x / 2 == p.x / 2 && q.x % 2 == 1;
    }
  }

  /** `State::new` of part two reads the map as part one does, with every
      cell doubled: a box becomes its left and right halves, the robot
      stands at twice its column. */
  function ReadWideMap(rows: seq<string>): (r: Result<Warehouse>)
    ensures r.Ok? <==> Day15a.ReadMap(rows).Ok?
    ensures r.Ok? ==> Sound(r.value)
  {
    var narrow :- Day15a.ReadMap(rows);
    WidenSound(narrow);
    Ok(Widen(narrow))
  }

  /** Each character of the map becomes two cells side by side, and the
      robot's column is doubled. */
  lemma ReadWideMapCells(rows: seq<string>, p: Point)
    requires ReadWideMap(rows).Ok? && InBounds(|rows[0]|, |rows|, p)
    ensures var v := ReadWideMap(rows).value;
      v.width == 2 * |rows[0]| && v.height == |rows| &&
      Day15a.CellOf(rows[p.y][p.x]).Ok? &&
      [Get(v.width, v.height, v.cells, Point(2 * p.x, p.y)), Get(v.width, v.height, v.cells, Point(2 * p.x + 1, p.y))]
        == WideOf(rows[p.y][p.x]).value &&
      rows[v.robot.y][v.robot.x / 2] == '@' && v.robot.x % 2 == 0
  {
    var w := Day15a.ReadMap(rows).value;
    Day15a.ReadMapCells(rows, p);
    WidenPair(w, p);
    assert (w.robot.x * 2) / 2 == w.robot.x;
  }

  /** The narrow cell at `p` is the pair of wide cells at (2 x, y) and
      (2 x + 1, y). */
  lemma WidenPair(w: Day15a.Warehouse, p: Point)
    requires |w.cells| == w.width * w.height && InBounds(w.width, w.height, p)
    ensures Complete(Widen(w))
    ensures var c := Halves(Day15a.CellAt(w.width, w.height, w.cells, p));
      Get(w.width * 2, w.height, WideCells(w.cells), Point(2 * p.x, p.y)) == c[0] &&
      Get(w.width * 2, w.height, WideCells(w.cells), Point(2 * p.x + 1, p.y)) == c[1]
  {
    var left, right := Point(2 * p.x, p.y), Point(2 * p.x + 1, p.y);
    WideGet(w, left);
    WideGet(w, right);
    assert left.x / 2 == p.x && left.x % 2 == 0;
    assert right.x / 2 == p.x && right.x % 2 == 1;
  }

  /** The inner loop of `State::new` over the characters of row `y`,
      pushing two cells per character. */
  method WideRow(line: string, ghost flat: string, narrowWidth: nat, y: nat, cells: seq<Cell>, robot: Option<Point>,
                 ghost narrow: seq<Day15a.Cell>, ghost narrowRobot: Option<Point>)
    returns (r: Result<(seq<Cell>, Option<Point>)>, ghost narrow': seq<Day15a.Cell>, ghost narrowRobot': Option<Point>)
    requires narrowWidth >= 1 && |line| == narrowWidth && y * narrowWidth + narrowWidth <= |flat|
    requires (y + 1) * narrowWidth == y * narrowWidth + narrowWidth
    requires forall x :: 0 <= x < narrowWidth ==> flat[y * narrowWidth + x] == line[x]
    requires Day15a.Scanned(flat, narrowWidth, y * narrowWidth, narrow, narrowRobot)
    requires cells == WideCells(narrow) && robot == Doubled(narrowRobot)
    ensures r.Ok? ==> Day15a.Scanned(flat, narrowWidth, (y + 1) * narrowWidth, narrow', narrowRobot')
    ensures r.Ok? ==> r.value.0 == WideCells(narrow') && r.value.1 == Doubled(narrowRobot')
    ensures r.Err? ==> Collect(flat, Day15a.CellOf).Err?
  {
    var cells, robot := cells, robot;
    narrow', narrowRobot' := narrow, narrowRobot;
    for x := 0 to narrowWidth
      invariant Day15a.Scanned(flat, narrowWidth, y * narrowWidth + x, narrow', narrowRobot')
      invariant cells == WideCells(narrow') && robot == Doubled(narrowRobot')
    {
      var pair := WideOf(line[x]);
      if pair.Err? {
        CollectEach(flat, Day15a.CellOf);
        return Err(pair.msg), narrow', narrowRobot';
      }
      Day15a.ScanStep(flat, narrowWidth, y, x, narrow', narrowRobot');
      if line[x] == '@' {
        robot := Some(Point(x * 2, y));
      }
      ghost var cell := Day15a.CellOf(line[x]).value;
      assert (narrow' + [cell])[..|narrow'|] == narrow';
      cells := cells + pair.value;
      narrow' := narrow' + [cell];
      narrowRobot' := if line[x] == '@' then Some(Point(x, y)) else narrowRobot';
    }
    return Ok((cells, robot)), narrow', narrowRobot';
  }

  /** The row loop of `State::new`: every row read twice as wide. */
  method ScanWide(rows: seq<string>, ghost flat: string, narrowWidth: nat)
    returns (r: Result<(seq<Cell>, Option<Point>)>, ghost narrow: seq<Day15a.Cell>, ghost narrowRobot: Option<Point>)
    requires Day15a.OneWidth(rows) && narrowWidth == |rows[0]| && narrowWidth >= 1
    requires flat == Flatten(rows) && |flat| == |rows| * narrowWidth
    ensures r.Ok? ==> Day15a.Scanned(flat, narrowWidth, |rows| * narrowWidth, narrow, narrowRobot)
    ensures r.Ok? ==> r.value.0 == WideCells(narrow) && r.value.1 == Doubled(narrowRobot)
    ensures r.Err? ==> ReadWideMap(rows).Err?
  {
    var cells: seq<Cell> := [];
    var robot: Option<Point> := None;
    narrow, narrowRobot := [], None;
    for y := 0 to |rows|
      invariant Day15a.Scanned(flat, narrowWidth, y * narrowWidth, narrow, narrowRobot)
      invariant cells == WideCells(narrow) && robot == Doubled(narrowRobot)
    {
      RowSlots(rows, narrowWidth, y);
      var row;
      row, narrow, narrowRobot := WideRow(rows[y], flat, narrowWidth, y, cells, robot, narrow, narrowRobot);
      if row.Err? {
        return Err(row.msg), narrow, narrowRobot;
      }
      cells, robot := row.value.0, row.value.1;
    }
    return Ok((cells, robot)), narrow, narrowRobot;
  }

  /** `State::new`: check the widths, then read row by row. */
  method NewState(rows: seq<string>) returns (r: Result<State>)
    ensures r.Ok? <==> ReadWideMap(rows).Ok?
    ensures r.Ok? ==> fresh(r.value) && r.value.Snapshot() == ReadWideMap(rows).value
  {
    if !Day15a.OneWidth(rows) {
      return Err("uneven map lines");
    }
    var narrowWidth, height := |rows[0]|, |rows|;
    var width := narrowWidth * 2;
    ghost var flat := Flatten(rows);
    FlattenLength(rows, narrowWidth);
    if narrowWidth == 0 {
      assert Day15a.LastRobot(flat).None?;
      return Err("missing robot position");
    }
    var scan;
    ghost var narrow, narrowRobot;
    scan, narrow, narrowRobot := ScanWide(rows, flat, narrowWidth);
    if scan.Err? {
      return Err(scan.msg);
    }
    var cells, robot := scan.value.0, scan.value.1;
    WideScanComplete(rows, narrow, narrowRobot);
    if robot.None? {
      return Err("missing robot position");
    }
    var s := new State(Warehouse(width, height, cells, robot.value));
    return Ok(s);
  }

  /** A whole scan of the rows decides the wide map: no robot means an
      error, and otherwise the doubled cells and robot are the map. */
  lemma WideScanComplete(rows: seq<string>, narrow: seq<Day15a.Cell>, narrowRobot: Option<Point>)
    requires Day15a.OneWidth(rows) && |rows[0]| >= 1
    requires |Flatten(rows)| == |rows| * |rows[0]|
    requires Day15a.Scanned(Flatten(rows), |rows[0]|, |rows| * |rows[0]|, narrow, narrowRobot)
    ensures narrowRobot.None? ==> ReadWideMap(rows).Err?
    ensures narrowRobot.Some? ==>
      ReadWideMap(rows) == Ok(Warehouse(|rows[0]| * 2, |rows|, WideCells(narrow), Doubled(narrowRobot).value))
  {
    Day15a.ScanComplete(rows, narrow, narrowRobot);
  }

  /** What `do_it` reads: the lines split as in part one, and the map
      read twice as wide. */
  function ReadInput(lines: seq<string>): (r: Result<(Warehouse, string)>)
    ensures r.Ok? ==> Sound(r.value.0) && Day15a.AllMoves(r.value.1)
  {
    var kept := NonBlankLines(lines);
    var parts :- Day15a.Sections(kept);
    Day15a.SectionsParts(kept);
    Day15a.FlattenMoves(kept[|parts.0|..]);
    var w :- ReadWideMap(parts.0);
    Ok((w, parts.1))
  }

  /** `do_it`: the GPS sum of the left halves after every instruction. */
  function Answer(lines: seq<string>): Result<nat>
  {
    var input :- ReadInput(lines);
    var final :- Replay(input.0, input.1);
    Ok(Day15a.Gps(final.width, final.cells, BoxLeft))
  }

  /** Once the input reads, the instructions never fail. */
  lemma AnswerOk(lines: seq<string>)
    ensures Answer(lines).Ok? <==> ReadInput(lines).Ok?
  {
    if ReadInput(lines).Ok? {
      var (w, moves) := ReadInput(lines).value;
      ReplaySound(w, moves);
    }
  }

  /** The reading half of `do_it`: split the lines and build the state. */
  method Load(lines: seq<string>) returns (r: Result<(State, string)>)
    ensures r.Ok? <==> ReadInput(lines).Ok?
    ensures r.Ok? ==> fresh(r.value.0) && (r.value.0.Snapshot(), r.value.1) == ReadInput(lines).value
  {
    var kept := NonBlankLines(lines);
    var sections := Day15a.SplitSections(kept);
    if sections.Err? {
      return Err(sections.msg);
    }
    var (plan, moves) := sections.value;
    var made := NewState(plan);
    if made.Err? {
      return Err(made.msg);
    }
    return Ok((made.value, moves));
  }

  /** `do_it`. */
  method Solve(lines: seq<string>) returns (r: Result<nat>)
    ensures r.Ok? <==> Answer(lines).Ok?
    ensures r.Ok? ==> r == Answer(lines)
  {
    var loaded := Load(lines);
    if loaded.Err? {
      return Err(loaded.msg);
    }
    var (state, moves) := loaded.value;
    ghost var start := state.Snapshot();
    assert ReadInput(lines).value == (start, moves);
    var ran := Run(state, moves);
    if ran.Err? {
      assert Replay(start, moves).Err?;
      return Err(ran.msg);
    }
    var total := state.CountBoxGps();
    assert Answer(lines) == Ok(Day15a.Gps(state.width, state.cells, BoxLeft));
    return Ok(total);
  }
}
