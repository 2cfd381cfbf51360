/** Points, the four axis directions and row-major indexing of a
    `width` x `height` grid, as most of the grid solvers declare them. */
module Grid2D {
  import opened Common

  datatype Point = Point(x: int, y: int)
  {
    function Add(q: Point): Point { Point(x + q.x, y + q.y) }
    function Sub(q: Point): Point { Point(x - q.x, y - q.y) }
    function Scale(k: int): Point { Point(x * k, y * k) }
  }

  datatype Direction = Up | Right | Down | Left

  function Delta(d: Direction): (p: Point)
    ensures (p.x == 0) != (p.y == 0) && -1 <= p.x <= 1 && -1 <= p.y <= 1
  {
    match d
    case Up => Point(0, -1)
    case Right => Point(1, 0)
    case Down => Point(0, 1)
    case Left => Point(-1, 0)
  }

  /** Quarter turn clockwise (with y growing downwards). */
  function TurnRight(d: Direction): Direction
  {
    match d
    case Up => Right
    case Right => Down
    case Down => Left
    case Left => Up
  }

  function TurnLeft(d: Direction): Direction
  {
    match d
    case Up => Left
    case Left => Down
    case Down => Right
    case Right => Up
  }

  lemma TurnsAreInverse(d: Direction)
    ensures TurnLeft(TurnRight(d)) == d && TurnRight(TurnLeft(d)) == d
    ensures TurnRight(TurnRight(TurnRight(TurnRight(d)))) == d
    ensures TurnRight(d) != d
  {
  }

  /** Turning right rotates the step vector a quarter turn. */
  lemma TurnRightRotates(d: Direction)
    ensures Delta(TurnRight(d)) == Point(-Delta(d).y, Delta(d).x)
  {
  }

  /** The step in direction `d` from `p`. */
  function Step(p: Point, d: Direction): Point
  {
    p.Add(Delta(d))
  }

  predicate InBounds(width: int, height: int, p: Point)
  {
    0 <= p.x < width && 0 <= p.y < height
  }

  /** Row-major slot of an in-bounds point. */
  function Index(width: nat, p: Point): int
  {
    p.y * width + p.x
  }

  /** The grid with the cell at `p` replaced by `value`. */
  function Put<T>(width: nat, height: nat, cells: seq<T>, p: Point, value: T): (r: seq<T>)
    requires |cells| == width * height && InBounds(width, height, p)
    ensures |r| == |cells| && 0 <= Index(width, p) < |cells|
  {
    IndexBounds(width, height, p);
    cells[Index(width, p) := value]
  }

  /** In-bounds points have distinct slots below `width * height`. */
  lemma IndexBounds(width: nat, height: nat, p: Point)
    requires InBounds(width, height, p)
    ensures 0 <= Index(width, p) < width * height
  {
    assert p.y * width <= (height - 1) * width;
  }

  lemma IndexInjective(width: nat, height: nat, p: Point, q: Point)
    requires InBounds(width, height, p) && InBounds(width, height, q)
    requires Index(width, p) == Index(width, q)
    ensures p == q
  {
    if p.y < q.y {
      RowsApart(p.y, q.y, width);
    } else if q.y < p.y {
      RowsApart(q.y, p.y, width);
    }
  }

  /** The point stored at slot `i`. */
  function PointAt(width: nat, i: nat): (p: Point)
    requires width > 0
    ensures Index(width, p) == i && 0 <= p.x < width && p.y >= 0
  {
    Point(i % width, i / width)
  }

  /** A slot below `width * height` lies on one of the first `height` rows. */
  lemma SlotRow(width: nat, height: nat, p: Point)
    requires 0 <= p.x < width && 0 <= p.y && Index(width, p) < width * height
    ensures p.y < height
  {
    var k := p.y - height;
    assert p.y * width == height * width + k * width;
  }

  /** Slot and point are inverse on a row of width `width`. */
  lemma PointAtIndex(width: nat, p: Point)
    requires 0 <= p.x < width && p.y >= 0
    ensures PointAt(width, Index(width, p)) == p
  {
    ModUnique(Index(width, p), width, p.y, p.x);
  }

  /** The cells before slot `k` of a row-major grid that hold `c`, in order. */
  function Positions<T(==)>(flat: seq<T>, width: nat, c: T, k: nat): (r: seq<Point>)
    requires k <= |flat| && (k == 0 || width >= 1)
    ensures forall i :: 0 <= i < |r| ==>
      0 <= r[i].x < width && 0 <= r[i].y && 0 <= Index(width, r[i]) < k && flat[Index(width, r[i])] == c
    ensures forall i, j :: 0 <= i < j < |r| ==> Index(width, r[i]) < Index(width, r[j])
  {
    if k == 0 then []
    else
      var prev := Positions(flat, width, c, k - 1);
      if flat[k - 1] == c then prev + [PointAt(width, k - 1)] else prev
  }

  /** Every cell holding `c` is listed. */
  lemma {:induction false} PositionsComplete<T>(flat: seq<T>, width: nat, c: T, k: nat, i: nat)
    requires width >= 1 && k <= |flat| && i < k && flat[i] == c
    ensures PointAt(width, i) in Positions(flat, width, c, k)
  {
    if i < k - 1 {
      PositionsComplete(flat, width, c, k - 1, i);
    }
  }

  /** What membership in `Positions` says about a cell. */
  lemma PositionsMember<T>(flat: seq<T>, width: nat, c: T, k: nat, p: Point)
    requires k <= |flat| && (k == 0 || width >= 1) && p in Positions(flat, width, c, k)
    ensures 0 <= p.x < width && 0 <= p.y && 0 <= Index(width, p) < k && flat[Index(width, p)] == c
  {
    var s := Positions(flat, width, c, k);
    var i :| 0 <= i < |s| && s[i] == p;
  }

  /** Up, right, down and left of `p`, in that order. */
  function Neighbors4(p: Point): seq<Point>
  {
    [Step(p, Up), Step(p, Right), Step(p, Down), Step(p, Left)]
  }

  /** Manhattan distance. */
  function Manhattan(p: Point, q: Point): nat
  {
    (if p.x >= q.x then p.x - q.x else q.x - p.x) + (if p.y >= q.y then p.y - q.y else q.y - p.y)
  }

  /** Scans over rows, then columns, then `d` alternatives per cell (row-major
      order): the triples (x, y, k) visited before (x0, y0, k0) at which `hit` holds. */
  predicate Before(x: int, y: int, k: int, x0: int, y0: int, k0: int)
  {
    y < y0 || (y == y0 && (x < x0 || (x == x0 && k < k0)))
  }

  ghost function HitsBefore(w: nat, h: nat, d: nat, hit: (int, int, int) -> bool,
                            x0: int, y0: int, k0: int): set<(int, int, int)>
  {
    set y, x, k | 0 <= y < h && 0 <= x < w && 0 <= k < d && Before(x, y, k, x0, y0, k0) && hit(x, y, k)
      :: (x, y, k)
  }

  ghost function AllHits(w: nat, h: nat, d: nat, hit: (int, int, int) -> bool): set<(int, int, int)>
  {
    set y, x, k | 0 <= y < h && 0 <= x < w && 0 <= k < d && hit(x, y, k) :: (x, y, k)
  }

  lemma HitsStart(w: nat, h: nat, d: nat, hit: (int, int, int) -> bool)
    ensures HitsBefore(w, h, d, hit, 0, 0, 0) == {}
  {
  }

  lemma HitsStep(w: nat, h: nat, d: nat, hit: (int, int, int) -> bool, x: int, y: int, k: int)
    requires 0 <= x < w && 0 <= y < h && 0 <= k < d
    ensures (x, y, k) !in HitsBefore(w, h, d, hit, x, y, k)
    ensures HitsBefore(w, h, d, hit, x, y, k + 1) ==
      HitsBefore(w, h, d, hit, x, y, k) + (if hit(x, y, k) then {(x, y, k)} else {})
  {
  }

  lemma HitsNextCell(w: nat, h: nat, d: nat, hit: (int, int, int) -> bool, x: int, y: int)
    ensures HitsBefore(w, h, d, hit, x, y, d) == HitsBefore(w, h, d, hit, x + 1, y, 0)
  {
  }

  lemma HitsNextRow(w: nat, h: nat, d: nat, hit: (int, int, int) -> bool, y: int)
    ensures HitsBefore(w, h, d, hit, w, y, 0) == HitsBefore(w, h, d, hit, 0, y + 1, 0)
  {
  }

  lemma HitsEnd(w: nat, h: nat, d: nat, hit: (int, int, int) -> bool)
    ensures HitsBefore(w, h, d, hit, 0, h, 0) == AllHits(w, h, d, hit)
  {
  }
}
