/** Warehouse robot, part one: the robot walks by the instructions and
    pushes any run of boxes in front of it, unless the run is stopped by a
    wall. The answer is the sum of the boxes' GPS coordinates. */
module Day15a {
  import opened Common
  import opened Grid2D
  import opened Text

  datatype Cell = Empty | Box | Wall

  /** The warehouse as a value: `cells` row by row, and the robot. */
  datatype Warehouse = Warehouse(width: nat, height: nat, cells: seq<Cell>, robot: Point)

  /** `get`: a cell of the grid, and Wall anywhere off it. */
  function CellAt(width: nat, height: nat, cells: seq<Cell>, p: Point): (c: Cell)
    requires |cells| == width * height
    ensures InBounds(width, height, p) ==> 0 <= Index(width, p) < |cells| && c == cells[Index(width, p)]
    ensures !InBounds(width, height, p) ==> c == Wall
  {
    if InBounds(width, height, p) then IndexBounds(width, height, p); cells[Index(width, p)] else Wall
  }

  /** The grid is complete, the robot stands on it, and its own cell is
      Empty (it is stored as Empty when the map is read). */
  ghost predicate Sound(w: Warehouse)
  {
    |w.cells| == w.width * w.height && InBounds(w.width, w.height, w.robot) &&
    CellAt(w.width, w.height, w.cells, w.robot) == Empty
  }

  /** The point `i` steps from `p` in direction `d`. */
  function Ray(p: Point, d: Direction, i: int): Point
  {
    match d
    case Right => Point(p.x + i, p.y)
    case Left => Point(p.x - i, p.y)
    case Down => Point(p.x, p.y + i)
    case Up => Point(p.x, p.y - i)
  }

  lemma RayNext(p: Point, d: Direction, i: int)
    ensures Ray(Step(p, d), d, i) == Ray(p, d, i + 1) && Ray(p, d, 1) == Step(p, d) && Ray(p, d, 0) == p
  {
  }

  /** Two different distances along a ray are two different points. */
  lemma RayInjective(p: Point, d: Direction, i: int, j: int)
    ensures Ray(p, d, i) == Ray(p, d, j) <==> i == j
  {
  }

  /** How many steps in direction `d` stay on the grid from `p`. */
  function StepsLeft(width: nat, height: nat, p: Point, d: Direction): int
  {
    match d
    case Right => width - p.x
    case Left => p.x + 1
    case Down => height - p.y
    case Up => p.y + 1
  }

  /** The number of boxes in a row from `p` on in direction `d`. */
  function BoxRun(width: nat, height: nat, cells: seq<Cell>, p: Point, d: Direction): nat
    requires |cells| == width * height
    decreases if InBounds(width, height, p) then StepsLeft(width, height, p, d) else 0
  {
    if CellAt(width, height, cells, p) == Box then 1 + BoxRun(width, height, cells, Step(p, d), d) else 0
  }

  /** The run is boxes, and the cell after it is not a box. */
  lemma {:induction false} BoxRunShape(width: nat, height: nat, cells: seq<Cell>, p: Point, d: Direction)
    requires |cells| == width * height
    ensures forall i :: 0 <= i < BoxRun(width, height, cells, p, d) ==> CellAt(width, height, cells, Ray(p, d, i)) == Box
    ensures CellAt(width, height, cells, Ray(p, d, BoxRun(width, height, cells, p, d))) != Box
    decreases if InBounds(width, height, p) then StepsLeft(width, height, p, d) else 0
  {
    RayNext(p, d, 0);
    if CellAt(width, height, cells, p) == Box {
      var q := Step(p, d);
      BoxRunShape(width, height, cells, q, d);
      forall i | 0 <= i <= BoxRun(width, height, cells, p, d)
        ensures Ray(p, d, i) == (if i == 0 then p else Ray(q, d, i - 1))
      {
        RayNext(p, d, i - 1);
      }
    }
  }

  /** Where the robot's push ends: the first cell past the boxes ahead. */
  function Stop(w: Warehouse, d: Direction): Point
    requires |w.cells| == w.width * w.height
  {
    Ray(w.robot, d, BoxRun(w.width, w.height, w.cells, Step(w.robot, d), d) + 1)
  }

  /** One instruction, as the puzzle states it: when the cell past the
      boxes ahead is a wall nothing moves; otherwise the robot steps
      forward and, if there were boxes, the first of them is moved to that
      free cell (which is the same as moving the whole run one step). */
  function Push(w: Warehouse, d: Direction): (r: Warehouse)
    requires Sound(w)
    ensures r.width == w.width && r.height == w.height && |r.cells| == |w.cells|
    ensures r.robot == w.robot || r.robot == Step(w.robot, d)
    ensures r.robot != w.robot <==> CellAt(w.width, w.height, w.cells, Stop(w, d)) == Empty
    ensures r.robot == w.robot ==> r == w
  {
    var ahead := Step(w.robot, d);
    var k := BoxRun(w.width, w.height, w.cells, ahead, d);
    var stop := Stop(w, d);
    BoxRunShape(w.width, w.height, w.cells, ahead, d);
    RayNext(w.robot, d, k);
    if CellAt(w.width, w.height, w.cells, stop) != Empty then w
    else if k == 0 then w.(robot := ahead)
    else
      assert CellAt(w.width, w.height, w.cells, Ray(ahead, d, 0)) == Box;
      RayNext(w.robot, d, 0);
      w.(cells := Put(w.width, w.height, Put(w.width, w.height, w.cells, ahead, Empty), stop, Box), robot := ahead)
  }

  /** A push keeps the warehouse sound: the robot stays on the grid and
      its cell stays Empty. */
  lemma PushSound(w: Warehouse, d: Direction)
    requires Sound(w)
    ensures Sound(Push(w, d))
  {
    var ahead := Step(w.robot, d);
    var k := BoxRun(w.width, w.height, w.cells, ahead, d);
    var stop := Stop(w, d);
    RayNext(w.robot, d, k);
    RayNext(w.robot, d, 0);
    if CellAt(w.width, w.height, w.cells, stop) == Empty && k > 0 {
      RayInjective(w.robot, d, 1, k + 1);
      IndexBounds(w.width, w.height, stop);
      BoxRunShape(w.width, w.height, w.cells, ahead, d);
      assert CellAt(w.width, w.height, w.cells, Ray(ahead, d, 0)) == Box;
      IndexInjectiveNot(w.width, w.height, ahead, stop);
    }
  }

  /** Distinct points on the grid have distinct slots. */
  lemma IndexInjectiveNot(width: nat, height: nat, p: Point, q: Point)
    requires InBounds(width, height, p) && InBounds(width, height, q) && p != q
    ensures Index(width, p) != Index(width, q)
  {
    if Index(width, p) == Index(width, q) {
      IndexInjective(width, height, p, q);
    }
  }

  /** A push moves boxes but never creates or destroys one, and never
      touches a wall: the cells are a permutation of the old ones and the
      walls stay where they were. */
  lemma PushKeepsBoxesAndWalls(w: Warehouse, d: Direction)
    requires Sound(w)
    ensures multiset(Push(w, d).cells) == multiset(w.cells)
    ensures forall i :: 0 <= i < |w.cells| ==> (Push(w, d).cells[i] == Wall <==> w.cells[i] == Wall)
  {
    var ahead := Step(w.robot, d);
    var k := BoxRun(w.width, w.height, w.cells, ahead, d);
    if CellAt(w.width, w.height, w.cells, Stop(w, d)) == Empty && k > 0 {
      PushCells(w, d, k);
      var stop := Ray(w.robot, d, k + 1);
      BoxRunShape(w.width, w.height, w.cells, ahead, d);
      RayNext(w.robot, d, 0);
      assert CellAt(w.width, w.height, w.cells, Ray(ahead, d, 0)) == Box;
      RayInjective(w.robot, d, 1, k + 1);
      IndexInjectiveNot(w.width, w.height, ahead, stop);
      SwapKeepsMultiset(w.cells, Index(w.width, ahead), Index(w.width, stop));
      SwapKeepsWalls(w.cells, Index(w.width, ahead), Index(w.width, stop));
    }
  }

  /** Reading a cell after a write. */
  lemma CellAtPut(width: nat, height: nat, cells: seq<Cell>, p: Point, value: Cell, q: Point)
    requires |cells| == width * height && InBounds(width, height, p)
    ensures CellAt(width, height, Put(width, height, cells, p, value), q)
      == if q == p then value else CellAt(width, height, cells, q)
  {
    if InBounds(width, height, q) && q != p {
      IndexInjectiveNot(width, height, p, q);
    }
  }

  /** A push that is not blocked moves the robot onto the first box's
      cell and the whole run of boxes one step on, and leaves every other
      cell as it was. */
  lemma PushShiftsRun(w: Warehouse, d: Direction, q: Point)
    requires Sound(w) && CellAt(w.width, w.height, w.cells, Stop(w, d)) == Empty
    ensures var r, k := Push(w, d), BoxRun(w.width, w.height, w.cells, Step(w.robot, d), d);
      r.robot == Step(w.robot, d) &&
      (forall i :: 1 <= i <= k ==> CellAt(r.width, r.height, r.cells, Ray(r.robot, d, i)) == Box) &&
      (q != r.robot && q != Stop(w, d) ==> CellAt(r.width, r.height, r.cells, q) == CellAt(w.width, w.height, w.cells, q))
  {
    var ahead := Step(w.robot, d);
    var k := BoxRun(w.width, w.height, w.cells, ahead, d);
    var stop := Stop(w, d);
    var r := Push(w, d);
    PushCells(w, d, k);
    BoxRunShape(w.width, w.height, w.cells, ahead, d);
    if k > 0 {
      var once := Put(w.width, w.height, w.cells, ahead, Empty);
      forall i | 1 <= i <= k ensures CellAt(r.width, r.height, r.cells, Ray(ahead, d, i)) == Box {
        RayNext(w.robot, d, i);
        RayNext(w.robot, d, k);
        CellAtPut(w.width, w.height, once, stop, Box, Ray(ahead, d, i));
        if i < k {
          RayNext(w.robot, d, 0);
          RayInjective(w.robot, d, i + 1, 1);
          RayInjective(w.robot, d, i + 1, k + 1);
          CellAtPut(w.width, w.height, w.cells, ahead, Empty, Ray(ahead, d, i));
        }
      }
      CellAtPut(w.width, w.height, once, stop, Box, q);
      CellAtPut(w.width, w.height, w.cells, ahead, Empty, q);
    }
  }

  /** Exchanging a Box and an Empty cell keeps every wall. */
  lemma SwapKeepsWalls(cells: seq<Cell>, a: int, b: int)
    requires 0 <= a < |cells| && 0 <= b < |cells| && cells[a] == Box && cells[b] == Empty
    ensures forall i :: 0 <= i < |cells| ==> (cells[a := Empty][b := Box][i] == Wall <==> cells[i] == Wall)
  {
  }

  /** Exchanging a Box and an Empty cell keeps the multiset of cells. */
  lemma SwapKeepsMultiset(cells: seq<Cell>, a: int, b: int)
    requires 0 <= a < |cells| && 0 <= b < |cells| && a != b && cells[a] == Box && cells[b] == Empty
    ensures multiset(cells[a := Empty][b := Box]) == multiset(cells)
  {
    var once := cells[a := Empty];
    assert multiset(once) == multiset(cells) - multiset{Box} + multiset{Empty};
    assert once[b] == Empty;
    assert multiset(once[b := Box]) == multiset(once) - multiset{Empty} + multiset{Box};
  }

  /** The GPS coordinate of the cell at slot `i`: 100 times its row plus
      its column. */
  function Coordinate(width: nat, i: nat): nat
  {
    if width == 0 then 0 else 100 * (i / width) + i % width
  }

  /** The sum of the GPS coordinates of the cells holding `box`. */
  function Gps<T(==)>(width: nat, cells: seq<T>, box: T): nat
  {
    if cells == [] then 0
    else Gps(width, cells[..|cells| - 1], box) + (if cells[|cells| - 1] == box then Coordinate(width, |cells| - 1) else 0)
  }

  /** 100 times the row plus the column of each point, added up. */
  function SumCoordinates(ps: seq<Point>): int
  {
    if ps == [] then 0 else SumCoordinates(ps[..|ps| - 1]) + 100 * ps[|ps| - 1].y + ps[|ps| - 1].x
  }

  /** The GPS sum is the sum of 100 y + x over the positions of the boxes. */
  lemma {:induction false} GpsOverBoxes<T>(width: nat, cells: seq<T>, box: T, k: nat)
    requires width >= 1 && k <= |cells|
    ensures Gps(width, cells[..k], box) == SumCoordinates(Positions(cells, width, box, k))
  {
    if k > 0 {
      GpsOverBoxes(width, cells, box, k - 1);
      var prev := Positions(cells, width, box, k - 1);
      assert cells[..k][..k - 1] == cells[..k - 1];
      assert Gps(width, cells[..k], box) == Gps(width, cells[..k - 1], box) + (if cells[k - 1] == box then Coordinate(width, k - 1) else 0);
      if cells[k - 1] == box {
        CoordinateAt(width, k - 1);
        SumAppend(prev, PointAt(width, k - 1));
        assert Positions(cells, width, box, k) == prev + [PointAt(width, k - 1)];
      } else {
        assert Positions(cells, width, box, k) == prev;
      }
    }
  }

  /** The coordinate of a slot is 100 times its row plus its column. */
  lemma CoordinateAt(width: nat, i: nat)
    requires width >= 1
    ensures Coordinate(width, i) == 100 * PointAt(width, i).y + PointAt(width, i).x
  {
  }

  /** Adding one point adds its coordinate. */
  lemma SumAppend(ps: seq<Point>, p: Point)
    ensures SumCoordinates(ps + [p]) == SumCoordinates(ps) + 100 * p.y + p.x
  {
    assert (ps + [p])[..|ps|] == ps;
  }

  /** The warehouse object: its cells are updated in place. */
  class State {
    var width: nat
    var height: nat
    var cells: seq<Cell>
    var robot: Point

    constructor (w: Warehouse)
      ensures Snapshot() == w
    {
      width, height, cells, robot := w.width, w.height, w.cells, w.robot;
    }

    function Snapshot(): Warehouse
      reads this
    {
      Warehouse(width, height, cells, robot)
    }

    /** `set`: write a cell on the grid; a point off it is an error and
        changes nothing. */
    method Set(p: Point, value: Cell) returns (r: Result<()>)
      requires |cells| == width * height
      modifies this
      ensures r.Ok? <==> InBounds(width, height, p)
      ensures width == old(width) && height == old(height) && robot == old(robot)
      ensures r.Ok? ==> cells == Put(width, height, old(cells), p, value)
      ensures r.Err? ==> cells == old(cells)
      ensures |cells| == width * height
    {
      if InBounds(width, height, p) {
        IndexBounds(width, height, p);
        cells := cells[Index(width, p) := value];
        return Ok(());
      }
      return Err("set out of bounds");
    }

    /** `advance`: walk past the boxes ahead; if an Empty cell follows,
        shift each cell from there back to the robot one step forward,
        then move the robot. */
    method Advance(d: Direction)
      requires Sound(Snapshot())
      modifies this
      ensures Snapshot() == Push(old(Snapshot()), d)
    {
      ghost var w := Snapshot();
      var ahead := Step(robot, d);
      ghost var k := BoxRun(width, height, cells, ahead, d);
      var pos := ahead;
      ghost var i := 1;
      RayNext(robot, d, 0);
      while CellAt(width, height, cells, pos) == Box
        invariant Snapshot() == w
        invariant pos == Ray(robot, d, i) && k == BoxRun(width, height, cells, pos, d) + i - 1
        decreases BoxRun(width, height, cells, pos, d)
      {
        RayNext(robot, d, i);
        pos := Step(pos, d);
        i := i + 1;
      }
      if CellAt(width, height, cells, pos) == Empty {
        ShiftBoxes(w, d, k, pos);
        robot := Step(robot, d);
      }
    }

    /** The shifting loop of `advance`: from the free cell back to the
        robot, every cell takes the content of the one behind it. */
    method ShiftBoxes(ghost w: Warehouse, d: Direction, ghost k: nat, stop: Point)
      requires ShiftPlan(w, d, k) && Snapshot() == w && stop == Ray(robot, d, k + 1)
      modifies this
      ensures width == old(width) && height == old(height) && robot == old(robot)
      ensures cells == Push(w, d).cells
    {
      var pos := stop;
      var j := k + 1;
      while pos != robot
        invariant 0 <= j <= k + 1 && pos == Ray(robot, d, j)
        invariant width == w.width && height == w.height && robot == w.robot
        invariant ShiftedFrom(w, d, k, j, cells)
        decreases j
      {
        ShiftStep(w, d, k, j, cells);
        var previous := pos.Sub(Delta(d));
        var _ := Set(pos, CellAt(width, height, cells, previous));
        pos := previous;
        j := j - 1;
      }
      RayInjective(robot, d, j, 0);
      ShiftDone(w, d, k, cells);
    }

    /** `count_box_gps`: walk the rows and columns, adding 100 y + x for
        every box. */
    method CountBoxGps() returns (result: nat)
      requires |cells| == width * height
      ensures result == Gps(width, cells, Box)
    {
      result := 0;
      var i := 0;
      for y := 0 to height
        invariant i == y * width && result == Gps(width, cells[..i], Box)
      {
        NextRow(y, width);
        RowsApart(y, height, width);
        for x := 0 to width
          invariant i == y * width + x && result == Gps(width, cells[..i], Box)
        {
          assert cells[..i + 1][..i] == cells[..i];
          if cells[i] == Box {
            ModUnique(i, width, y, x);
            result := result + 100 * y + x;
          }
          i := i + 1;
        }
      }
      assert cells[..i] == cells;
    }
  }

  /** The shifting loop of `advance` has written the cells from `j + 1`
      up to the free cell `k + 1` steps ahead: while the loop is inside the
      run, only the free cell has become a Box; once it has written the
      cell next to the robot, the cells are those of the push. */
  ghost predicate ShiftedFrom(w: Warehouse, d: Direction, k: nat, j: int, cells: seq<Cell>)
    requires Sound(w)
  {
    var stop := Ray(w.robot, d, k + 1);
    InBounds(w.width, w.height, stop) && |cells| == |w.cells| &&
    (j == k + 1 ==> cells == w.cells) &&
    (1 <= j <= k ==> cells == Put(w.width, w.height, w.cells, stop, Box)) &&
    (j == 0 ==> cells == Push(w, d).cells)
  }

  /** The push moves a run of `k` boxes into a free cell. */
  ghost predicate ShiftPlan(w: Warehouse, d: Direction, k: nat)
  {
    Sound(w) && k == BoxRun(w.width, w.height, w.cells, Step(w.robot, d), d) &&
    CellAt(w.width, w.height, w.cells, Stop(w, d)) == Empty
  }

  /** One turn of the shifting loop: the cell `j` steps ahead receives the
      cell behind it, which is still as it was. */
  lemma ShiftStep(w: Warehouse, d: Direction, k: nat, j: int, cells: seq<Cell>)
    requires ShiftPlan(w, d, k)
    requires 1 <= j <= k + 1 && ShiftedFrom(w, d, k, j, cells)
    ensures InBounds(w.width, w.height, Ray(w.robot, d, j)) && InBounds(w.width, w.height, Ray(w.robot, d, j - 1))
    ensures Ray(w.robot, d, j).Sub(Delta(d)) == Ray(w.robot, d, j - 1)
    ensures ShiftedFrom(w, d, k, j - 1,
      Put(w.width, w.height, cells, Ray(w.robot, d, j), CellAt(w.width, w.height, cells, Ray(w.robot, d, j - 1))))
  {
    ShiftGeometry(w, d, k, j);
    if j == k + 1 {
      ShiftFirst(w, d, k);
    } else if j == 1 {
      ShiftLast(w, d, k, cells);
    } else {
      ShiftMiddle(w, d, k, j, cells);
    }
  }

  /** Where the shifting loop reads and writes: both cells lie on the grid,
      the one behind is a box unless it is the robot's, and neither is the
      free cell unless it is the first write. */
  lemma ShiftGeometry(w: Warehouse, d: Direction, k: nat, j: int)
    requires Sound(w) && k == BoxRun(w.width, w.height, w.cells, Step(w.robot, d), d)
    requires CellAt(w.width, w.height, w.cells, Stop(w, d)) == Empty
    requires 1 <= j <= k + 1
    ensures InBounds(w.width, w.height, Ray(w.robot, d, j)) && InBounds(w.width, w.height, Ray(w.robot, d, j - 1))
    ensures Ray(w.robot, d, j).Sub(Delta(d)) == Ray(w.robot, d, j - 1)
    ensures InBounds(w.width, w.height, Ray(w.robot, d, k + 1))
    ensures j <= k ==> CellAt(w.width, w.height, w.cells, Ray(w.robot, d, j)) == Box
    ensures j >= 2 ==> CellAt(w.width, w.height, w.cells, Ray(w.robot, d, j - 1)) == Box
  {
    var ahead := Step(w.robot, d);
    BoxRunShape(w.width, w.height, w.cells, ahead, d);
    RayNext(w.robot, d, j - 1);
    RayNext(w.robot, d, j - 2);
    RayNext(w.robot, d, k);
    assert Stop(w, d) == Ray(w.robot, d, k + 1);
    if j - 1 >= 1 {
      assert CellAt(w.width, w.height, w.cells, Ray(ahead, d, j - 2)) == Box;
    }
    if j <= k {
      assert CellAt(w.width, w.height, w.cells, Ray(ahead, d, j - 1)) == Box;
    }
  }

  /** The first write fills the free cell with what is behind it: a box,
      or, with no boxes ahead, the robot's own empty cell. */
  lemma ShiftFirst(w: Warehouse, d: Direction, k: nat)
    requires Sound(w) && k == BoxRun(w.width, w.height, w.cells, Step(w.robot, d), d)
    requires CellAt(w.width, w.height, w.cells, Stop(w, d)) == Empty
    requires InBounds(w.width, w.height, Ray(w.robot, d, k + 1)) && InBounds(w.width, w.height, Ray(w.robot, d, k))
    requires k >= 1 ==> CellAt(w.width, w.height, w.cells, Ray(w.robot, d, k)) == Box
    ensures ShiftedFrom(w, d, k, k,
      Put(w.width, w.height, w.cells, Ray(w.robot, d, k + 1), CellAt(w.width, w.height, w.cells, Ray(w.robot, d, k))))
  {
    var stop := Ray(w.robot, d, k + 1);
    assert Stop(w, d) == stop;
    if k == 0 {
      PushCells(w, d, k);
      RayNext(w.robot, d, 0);
      IndexBounds(w.width, w.height, stop);
      var r := Put(w.width, w.height, w.cells, stop, CellAt(w.width, w.height, w.cells, w.robot));
      assert r == w.cells;
    }
  }

  /** A write inside the run copies a box onto a box. */
  lemma ShiftMiddle(w: Warehouse, d: Direction, k: nat, j: int, cells: seq<Cell>)
    requires Sound(w) && k == BoxRun(w.width, w.height, w.cells, Step(w.robot, d), d)
    requires 2 <= j <= k && ShiftedFrom(w, d, k, j, cells)
    requires InBounds(w.width, w.height, Ray(w.robot, d, j)) && InBounds(w.width, w.height, Ray(w.robot, d, j - 1))
    requires CellAt(w.width, w.height, w.cells, Ray(w.robot, d, j)) == Box
    requires CellAt(w.width, w.height, w.cells, Ray(w.robot, d, j - 1)) == Box
    ensures ShiftedFrom(w, d, k, j - 1,
      Put(w.width, w.height, cells, Ray(w.robot, d, j), CellAt(w.width, w.height, cells, Ray(w.robot, d, j - 1))))
  {
    var stop, here, back := Ray(w.robot, d, k + 1), Ray(w.robot, d, j), Ray(w.robot, d, j - 1);
    IndexBounds(w.width, w.height, here);
    IndexBounds(w.width, w.height, back);
    IndexBounds(w.width, w.height, stop);
    RayInjective(w.robot, d, j, k + 1);
    RayInjective(w.robot, d, j - 1, k + 1);
    IndexInjectiveNot(w.width, w.height, here, stop);
    IndexInjectiveNot(w.width, w.height, back, stop);
    assert Put(w.width, w.height, cells, here, CellAt(w.width, w.height, cells, back)) == cells;
  }

  /** The last write empties the cell ahead of the robot. */
  lemma ShiftLast(w: Warehouse, d: Direction, k: nat, cells: seq<Cell>)
    requires Sound(w) && k == BoxRun(w.width, w.height, w.cells, Step(w.robot, d), d)
    requires CellAt(w.width, w.height, w.cells, Stop(w, d)) == Empty
    requires 1 <= k && ShiftedFrom(w, d, k, 1, cells)
    requires InBounds(w.width, w.height, Ray(w.robot, d, 1))
    ensures ShiftedFrom(w, d, k, 0,
      Put(w.width, w.height, cells, Ray(w.robot, d, 1), CellAt(w.width, w.height, cells, Ray(w.robot, d, 0))))
  {
    var stop, ahead := Ray(w.robot, d, k + 1), Ray(w.robot, d, 1);
    RayNext(w.robot, d, 0);
    PushCells(w, d, k);
    IndexBounds(w.width, w.height, ahead);
    IndexBounds(w.width, w.height, w.robot);
    IndexBounds(w.width, w.height, stop);
    RayInjective(w.robot, d, 1, k + 1);
    RayInjective(w.robot, d, 0, k + 1);
    IndexInjectiveNot(w.width, w.height, ahead, stop);
    IndexInjectiveNot(w.width, w.height, w.robot, stop);
    assert CellAt(w.width, w.height, cells, w.robot) == Empty;
    assert Put(w.width, w.height, cells, ahead, Empty)
      == Put(w.width, w.height, Put(w.width, w.height, w.cells, ahead, Empty), stop, Box);
  }

  /** What the push writes when the free cell is `k + 1` steps ahead. */
  lemma PushCells(w: Warehouse, d: Direction, k: nat)
    requires Sound(w) && k == BoxRun(w.width, w.height, w.cells, Step(w.robot, d), d)
    requires CellAt(w.width, w.height, w.cells, Stop(w, d)) == Empty
    ensures var ahead, stop := Step(w.robot, d), Ray(w.robot, d, k + 1);
      InBounds(w.width, w.height, ahead) && InBounds(w.width, w.height, stop) &&
      Push(w, d).cells == (if k == 0 then w.cells else Put(w.width, w.height, Put(w.width, w.height, w.cells, ahead, Empty), stop, Box))
  {
    RayNext(w.robot, d, 0);
    RayNext(w.robot, d, k);
    var ahead := Step(w.robot, d);
    BoxRunShape(w.width, w.height, w.cells, ahead, d);
    if k > 0 {
      assert CellAt(w.width, w.height, w.cells, Ray(ahead, d, 0)) == Box;
    }
  }

  /** When the shifting loop is back at the robot, the cells are the
      push's. */
  lemma ShiftDone(w: Warehouse, d: Direction, k: nat, cells: seq<Cell>)
    requires Sound(w) && ShiftedFrom(w, d, k, 0, cells)
    ensures cells == Push(w, d).cells
  {
  }

  /** The map characters: a box, an empty floor, a wall, and the robot
      standing on an empty floor. */
  function CellOf(c: char): Result<Cell>
  {
    match c
    case 'O' => Ok(Box)
    case '.' => Ok(Empty)
    case '#' => Ok(Wall)
    case '@' => Ok(Empty)
    case _ => Err("unparsable map char")
  }

  /** The last slot holding the robot, if any. */
  function LastRobot(flat: string): (r: Option<nat>)
    ensures r.Some? ==> (r.value < |flat| && flat[r.value] == '@' &&
      forall j :: r.value < j < |flat| ==> flat[j] != '@')
    ensures r.None? ==> forall j :: 0 <= j < |flat| ==> flat[j] != '@'
  {
    if flat == [] then None
    else if flat[|flat| - 1] == '@' then Some(|flat| - 1)
    else LastRobot(flat[..|flat| - 1])
  }

  /** The map lines all have one width (the set of widths has one element). */
  predicate OneWidth(rows: seq<string>)
  {
    rows != [] && forall i :: 0 <= i < |rows| ==> |rows[i]| == |rows[0]|
  }

  /** `State::new` declaratively: one width, every character a map
      character, and a robot (the last one read, when there are several). */
  function ReadMap(rows: seq<string>): (r: Result<Warehouse>)
    ensures r.Ok? ==> OneWidth(rows) && Sound(r.value) && r.value.width == |rows[0]| && r.value.height == |rows|
  {
    if !OneWidth(rows) then Err("uneven map lines")
    else
      var width, flat := |rows[0]|, Flatten(rows);
      FlattenLength(rows, width);
      var cells :- Collect(flat, CellOf);
      var slot := LastRobot(flat);
      if slot.None? then Err("missing robot position")
      else
        var robot := PointAt(width, slot.value);
        SlotRow(width, |rows|, robot);
        CollectEach(flat, CellOf);
        Ok(Warehouse(width, |rows|, cells, robot))
  }

  /** Each cell is read from its own character of the map, and the robot
      stands where the last '@' is. */
  lemma ReadMapCells(rows: seq<string>, p: Point)
    requires ReadMap(rows).Ok? && InBounds(|rows[0]|, |rows|, p)
    ensures var w := ReadMap(rows).value;
      CellOf(rows[p.y][p.x]) == Ok(CellAt(w.width, w.height, w.cells, p)) &&
      rows[w.robot.y][w.robot.x] == '@'
  {
    var w := ReadMap(rows).value;
    var flat := Flatten(rows);
    FlattenIndex(rows, w.width);
    CollectEach(flat, CellOf);
    IndexBounds(w.width, w.height, p);
    IndexBounds(w.width, w.height, w.robot);
  }

  /** What the scan of `State::new` has gathered after the first `i`
      slots of the flattened map. */
  ghost predicate Scanned(flat: string, width: nat, i: nat, cells: seq<Cell>, robot: Option<Point>)
    requires width >= 1
  {
    i <= |flat| && |cells| == i &&
    (forall j :: 0 <= j < i ==> CellOf(flat[j]) == Ok(cells[j])) &&
    robot == (match LastRobot(flat[..i]) case None => None case Some(s) => Some(PointAt(width, s)))
  }

  /** One character more of the scan. */
  lemma ScanStep(flat: string, width: nat, y: nat, x: nat, cells: seq<Cell>, robot: Option<Point>)
    requires width >= 1 && x < width && y * width + x < |flat|
    requires Scanned(flat, width, y * width + x, cells, robot) && CellOf(flat[y * width + x]).Ok?
    ensures var i := y * width + x;
      Scanned(flat, width, i + 1, cells + [CellOf(flat[i]).value], if flat[i] == '@' then Some(Point(x, y)) else robot)
  {
    var i := y * width + x;
    assert flat[..i + 1][..i] == flat[..i];
    if flat[i] == '@' {
      ModUnique(i, width, y, x);
    }
  }

  /** The inner loop of `State::new` over the characters of row `y`. */
  method ScanRow(line: string, ghost flat: string, width: nat, y: nat, cells: seq<Cell>, robot: Option<Point>)
    returns (r: Result<(seq<Cell>, Option<Point>)>)
    requires width >= 1 && |line| == width && y * width + width <= |flat| && (y + 1) * width == y * width + width
    requires forall x :: 0 <= x < width ==> flat[y * width + x] == line[x]
    requires Scanned(flat, width, y * width, cells, robot)
    ensures r.Ok? ==> Scanned(flat, width, (y + 1) * width, r.value.0, r.value.1)
    ensures r.Err? ==> Collect(flat, CellOf).Err?
  {
    var cells, robot := cells, robot;
    for x := 0 to width
      invariant Scanned(flat, width, y * width + x, cells, robot)
    {
      var cell := CellOf(line[x]);
      if cell.Err? {
        CollectEach(flat, CellOf);
        return Err(cell.msg);
      }
      ScanStep(flat, width, y, x, cells, robot);
      if line[x] == '@' {
        robot := Some(Point(x, y));
      }
      cells := cells + [cell.value];
    }
    return Ok((cells, robot));
  }

  /** `State::new`: check the widths, then read row by row, pushing one
      cell per character and remembering the robot. */
  method NewState(rows: seq<string>) returns (r: Result<State>)
    ensures r.Ok? <==> ReadMap(rows).Ok?
    ensures r.Ok? ==> fresh(r.value) && r.value.Snapshot() == ReadMap(rows).value
  {
    if !OneWidth(rows) {
      return Err("uneven map lines");
    }
    var width, height := |rows[0]|, |rows|;
    ghost var flat := Flatten(rows);
    FlattenLength(rows, width);
    if width == 0 {
      assert LastRobot(flat).None?;
      return Err("missing robot position");
    }
    var cells: seq<Cell> := [];
    var robot: Option<Point> := None;
    for y := 0 to height
      invariant Scanned(flat, width, y * width, cells, robot)
    {
      RowSlots(rows, width, y);
      var row := ScanRow(rows[y], flat, width, y, cells, robot);
      if row.Err? {
        return Err(row.msg);
      }
      cells, robot := row.value.0, row.value.1;
    }
    ScanComplete(rows, cells, robot);
    if robot.None? {
      return Err("missing robot position");
    }
    var s := new State(Warehouse(width, height, cells, robot.value));
    return Ok(s);
  }

  /** Once every row is scanned, the scan agrees with `ReadMap`. */
  lemma ScanComplete(rows: seq<string>, cells: seq<Cell>, robot: Option<Point>)
    requires OneWidth(rows) && |rows[0]| >= 1
    requires |Flatten(rows)| == |rows| * |rows[0]|
    requires Scanned(Flatten(rows), |rows[0]|, |rows| * |rows[0]|, cells, robot)
    ensures robot.None? ==> ReadMap(rows).Err?
    ensures robot.Some? ==> ReadMap(rows) == Ok(Warehouse(|rows[0]|, |rows|, cells, robot.value))
  {
    var flat := Flatten(rows);
    assert flat[..|flat|] == flat;
    CollectEach(flat, CellOf);
    assert cells == Collect(flat, CellOf).value;
  }

  predicate IsMapChar(c: char)
  {
    c == 'O' || c == '#' || c == '.' || c == '@'
  }

  predicate IsMoveChar(c: char)
  {
    c == '<' || c == '>' || c == '^' || c == 'v'
  }

  /** A line of the `^[O#\.@]+$` pattern. */
  predicate IsMapLine(s: string)
  {
    s != [] && forall i :: 0 <= i < |s| ==> IsMapChar(s[i])
  }

  /** A line of the `^[><^v]+$` pattern. */
  predicate IsMoveLine(s: string)
  {
    s != [] && forall i :: 0 <= i < |s| ==> IsMoveChar(s[i])
  }

  /** The line loop of `do_it` over the kept lines: map lines go to the
      map, instruction lines to the instructions; anything else, or a map
      line after an instruction line, is an error. */
  function Sections(kept: seq<string>): (r: Result<(seq<string>, string)>)
    ensures r.Ok? ==> |r.value.0| <= |kept|
  {
    if kept == [] then Ok(([], []))
    else
      var (plan, moves) :- Sections(kept[..|kept| - 1]);
      var line := kept[|kept| - 1];
      if IsMapLine(line) then
        if moves != [] then Err("found map line in the instructions section?") else Ok((plan + [line], moves))
      else if IsMoveLine(line) then Ok((plan, moves + line))
      else Err("unparsable line")
  }

  /** No line is both a map line and an instruction line. */
  lemma MapNotMove(s: string)
    requires IsMapLine(s)
    ensures !IsMoveLine(s)
  {
    assert IsMapChar(s[0]);
  }

  /** Every line is a map line or an instruction line. */
  ghost predicate AllKnown(kept: seq<string>)
  {
    forall i :: 0 <= i < |kept| ==> IsMapLine(kept[i]) || IsMoveLine(kept[i])
  }

  /** No map line comes after an instruction line. */
  ghost predicate MapFirst(kept: seq<string>)
  {
    forall i, j :: 0 <= i < j < |kept| && IsMoveLine(kept[i]) ==> !IsMapLine(kept[j])
  }

  /** When the input splits, the map is the leading map lines and the
      instructions are the remaining lines, all instruction lines, joined. */
  lemma {:induction false} SectionsParts(kept: seq<string>)
    requires Sections(kept).Ok?
    ensures var (plan, moves) := Sections(kept).value;
      plan == kept[..|plan|] && moves == Flatten(kept[|plan|..]) &&
      (forall i :: 0 <= i < |plan| ==> IsMapLine(kept[i])) &&
      (forall i :: |plan| <= i < |kept| ==> IsMoveLine(kept[i]))
  {
    if kept != [] {
      var n := |kept| - 1;
      var front, line := kept[..n], kept[n];
      SectionsParts(front);
      var (plan, moves) := Sections(front).value;
      var tail := front[|plan|..];
      if IsMapLine(line) {
        FlattenEmpty(tail);
        assert kept[..|plan| + 1] == plan + [line];
        assert kept[|plan| + 1..] == [];
      } else {
        assert kept[|plan|..] == tail + [line];
        assert kept[|plan|..][..|tail|] == tail;
      }
    }
  }

  /** The input splits exactly when every line is a map line or an
      instruction line and no map line follows an instruction line. */
  lemma {:induction false} SectionsOk(kept: seq<string>)
    ensures Sections(kept).Ok? <==> AllKnown(kept) && MapFirst(kept)
  {
    if kept != [] {
      var n := |kept| - 1;
      var front, line := kept[..n], kept[n];
      SectionsOk(front);
      assert forall i :: 0 <= i < n ==> front[i] == kept[i];
      if Sections(front).Ok? {
        SectionsParts(front);
        var (plan, moves) := Sections(front).value;
        if IsMapLine(line) {
          if moves == [] {
            FlattenEmpty(front[|plan|..]);
            assert |plan| == n;
            forall i | 0 <= i < n ensures !IsMoveLine(kept[i]) {
              MapNotMove(kept[i]);
            }
          } else {
            assert IsMoveLine(kept[|plan|]);
          }
        } else if IsMoveLine(line) {
          MoveNotMap(line);
        }
      }
    }
  }

  lemma MoveNotMap(s: string)
    requires IsMoveLine(s)
    ensures !IsMapLine(s)
  {
    assert IsMoveChar(s[0]);
  }

  /** Instruction lines joined are instructions only. */
  lemma {:induction false} FlattenMoves(pieces: seq<string>)
    requires forall i :: 0 <= i < |pieces| ==> IsMoveLine(pieces[i])
    ensures AllMoves(Flatten(pieces))
  {
    if pieces != [] {
      var front, last := pieces[..|pieces| - 1], pieces[|pieces| - 1];
      FlattenMoves(front);
      var joined := Flatten(front) + last;
      forall i | 0 <= i < |joined| ensures DirectionOf(joined[i]).Some? {
        if i >= |Flatten(front)| { assert joined[i] == last[i - |Flatten(front)|]; }
      }
    }
  }

  /** Pieces that are not empty join to something non-empty. */
  lemma {:induction false} FlattenEmpty(pieces: seq<string>)
    requires forall i :: 0 <= i < |pieces| ==> IsMoveLine(pieces[i])
    ensures Flatten(pieces) == [] <==> pieces == []
  {
    if pieces != [] {
      FlattenEmpty(pieces[..|pieces| - 1]);
    }
  }

  /** An error in the first lines is the error of the whole input. */
  lemma {:induction false} SectionsErrSticks(kept: seq<string>, n: nat)
    requires n <= |kept| && Sections(kept[..n]).Err?
    ensures Sections(kept) == Sections(kept[..n])
  {
    if n < |kept| {
      var front := kept[..|kept| - 1];
      assert front[..n] == kept[..n];
      SectionsErrSticks(front, n);
    } else {
      assert kept[..n] == kept;
    }
  }

  /** The `for line in file_contents` loop of `do_it`. */
  method SplitSections(kept: seq<string>) returns (r: Result<(seq<string>, string)>)
    ensures r == Sections(kept)
  {
    var plan: seq<string> := [];
    var moves: string := [];
    for i := 0 to |kept|
      invariant Sections(kept[..i]) == Ok((plan, moves))
    {
      assert kept[..i + 1][..i] == kept[..i];
      var line := kept[i];
      if IsMapLine(line) {
        if moves != [] {
          SectionsErrSticks(kept, i + 1);
          return Err("found map line in the instructions section?");
        }
        plan := plan + [line];
      } else if IsMoveLine(line) {
        moves := moves + line;
      } else {
        SectionsErrSticks(kept, i + 1);
        return Err("unparsable line");
      }
    }
    assert kept[..|kept|] == kept;
    return Ok((plan, moves));
  }

  /** The instruction characters. */
  function DirectionOf(c: char): Option<Direction>
  {
    match c
    case '<' => Some(Left)
    case '>' => Some(Right)
    case '^' => Some(Up)
    case 'v' => Some(Down)
    case _ => None
  }

  /** Every character is an instruction. */
  predicate AllMoves(moves: string)
  {
    forall i :: 0 <= i < |moves| ==> DirectionOf(moves[i]).Some?
  }

  lemma AllMovesPrefix(moves: string, n: nat)
    requires AllMoves(moves) && n <= |moves|
    ensures AllMoves(moves[..n])
  {
  }

  /** The warehouse after the instructions, in order. */
  function Replay(w: Warehouse, moves: string): (r: Warehouse)
    requires Sound(w) && AllMoves(moves)
    ensures Sound(r) && r.width == w.width && r.height == w.height
    ensures multiset(r.cells) == multiset(w.cells)
  {
    if moves == [] then w
    else
      var before := Replay(w, moves[..|moves| - 1]);
      PushSound(before, DirectionOf(moves[|moves| - 1]).value);
      PushKeepsBoxesAndWalls(before, DirectionOf(moves[|moves| - 1]).value);
      Push(before, DirectionOf(moves[|moves| - 1]).value)
  }

  /** The instruction loop of `do_it`: one `advance` per character. */
  method Run(state: State, moves: string)
    requires Sound(state.Snapshot()) && AllMoves(moves)
    modifies state
    ensures state.Snapshot() == Replay(old(state.Snapshot()), moves)
  {
    ghost var start := state.Snapshot();
    for i := 0 to |moves|
      invariant AllMoves(moves[..i]) && state.Snapshot() == Replay(start, moves[..i])
    {
      AllMovesPrefix(moves, i + 1);
      assert moves[..i + 1][..i] == moves[..i];
      state.Advance(DirectionOf(moves[i]).value);
    }
    assert moves[..|moves|] == moves;
  }

  /** What `do_it` reads: the map and the instructions, or the error. */
  function ReadInput(lines: seq<string>): Result<(Warehouse, string)>
  {
    var (plan, moves) :- Sections(NonBlankLines(lines));
    var w :- ReadMap(plan);
    Ok((w, moves))
  }

  /** `do_it`: read the map and the instructions, advance once per
      instruction character and add up the boxes' GPS coordinates. */
  method Solve(lines: seq<string>) returns (r: Result<nat>)
    ensures r.Ok? <==> ReadInput(lines).Ok?
    ensures r.Ok? ==> AllMoves(ReadInput(lines).value.1)
    ensures r.Ok? ==>
      var (w, moves) := ReadInput(lines).value;
      r.value == Gps(w.width, Replay(w, moves).cells, Box)
  {
    var kept := NonBlankLines(lines);
    var sections := SplitSections(kept);
    if sections.Err? {
      assert ReadInput(lines).Err?;
      return Err(sections.msg);
    }
    var (plan, moves) := sections.value;
    SectionsParts(kept);
    FlattenMoves(kept[|plan|..]);
    var made := NewState(plan);
    if made.Err? {
      assert ReadInput(lines).Err?;
      return Err(made.msg);
    }
    var state := made.value;
    ghost var start := state.Snapshot();
    assert ReadInput(lines) == Ok((start, moves));
    Run(state, moves);
    var total := state.CountBoxGps();
    return Ok(total);
  }
}
