/** Day 20, part one: a racetrack of empty cells and walls with one start and
    one end. A search seeded at the end gives every empty cell its distance
    to the end; then every jump through one wall cell onto another empty
    cell is a shortcut, and the time it saves is the difference of the
    distances less the two steps of the jump. The answer is how many
    shortcuts save at least a threshold. */
module Day20a {
  import opened Common
  import opened Text
  import opened Grid2D
  import opened MinQueue

  datatype Cell = Empty | Wall

  /** The racetrack: `data` holds the cells row by row, `goal` is the end
      position. The start position is read but not kept. */
  datatype Grid = Grid(width: nat, height: nat, data: seq<Cell>, goal: Point)

  predicate Sized(g: Grid)
  {
    |g.data| == g.width * g.height
  }

  /** The entry for point `p` of a per-cell vector. */
  function At<T>(g: Grid, s: seq<T>, p: Point): T
    requires |s| == g.width * g.height && InBounds(g.width, g.height, p)
  {
    IndexBounds(g.width, g.height, p);
    s[Index(g.width, p)]
  }

  lemma AtPut<T>(g: Grid, s: seq<T>, p: Point, v: T)
    requires |s| == g.width * g.height && InBounds(g.width, g.height, p)
    ensures forall q :: InBounds(g.width, g.height, q) ==>
      At(g, Put(g.width, g.height, s, p, v), q) == if q == p then v else At(g, s, q)
  {
    forall q | InBounds(g.width, g.height, q)
      ensures At(g, Put(g.width, g.height, s, p, v), q) == if q == p then v else At(g, s, q)
    {
      IndexBounds(g.width, g.height, q);
      if q != p && Index(g.width, q) == Index(g.width, p) {
        IndexInjective(g.width, g.height, p, q);
      }
    }
  }

  /** An empty cell of the grid. */
  predicate Open(g: Grid, p: Point)
    requires Sized(g)
  {
    InBounds(g.width, g.height, p) && At(g, g.data, p) == Empty
  }

  /** What `Grid::new` guarantees: the cells fill the grid and the end is an
      empty cell on it. */
  predicate Valid(g: Grid)
  {
    Sized(g) && Open(g, g.goal)
  }

  // ---------------------------------------------------------------- parsing

  /** The cell a character of the map stands for: `#` is a wall, `.`, `S`
      and `E` are empty, anything else is an illegal character. */
  function CellOf(c: char): (r: Result<Cell>)
    ensures r.Ok? <==> Legal(c)
    ensures r.Ok? ==> r.value == Terrain(c)
    ensures r.Err? ==> r.msg == "illegal character: " + [c]
  {
    match c
    case '.' => Ok(Empty)
    case '#' => Ok(Wall)
    case 'S' => Ok(Empty)
    case 'E' => Ok(Empty)
    case _ => Err("illegal character: " + [c])
  }

  predicate Legal(c: char)
  {
    c == '.' || c == '#' || c == 'S' || c == 'E'
  }

  function Terrain(c: char): Cell
  {
    if c == '#' then Wall else Empty
  }

  /** The state of the scan of `Grid::new`: the cells pushed so far and the
      last start and end positions seen. */
  datatype Scan = Scan(data: seq<Cell>, start: Option<Point>, end: Option<Point>)

  /** One character at `p`: push its cell, and remember `p` when it is S or E. */
  function Absorb(s: Scan, c: char, p: Point): Result<Scan>
  {
    var cell :- CellOf(c);
    Ok(Scan(s.data + [cell], if c == 'S' then Some(p) else s.start, if c == 'E' then Some(p) else s.end))
  }

  /** The scan over the first `x` characters of row `y`. */
  function ScanRow(s: Scan, line: string, y: int, x: nat): Result<Scan>
    requires x <= |line|
  {
    if x == 0 then Ok(s)
    else
      var s' :- ScanRow(s, line, y, x - 1);
      Absorb(s', line[x - 1], Point(x - 1, y))
  }

  /** The scan over the first `n` rows. */
  function ScanRows(lines: seq<string>, n: nat): Result<Scan>
    requires n <= |lines|
  {
    if n == 0 then Ok(Scan([], None, None))
    else
      var s :- ScanRows(lines, n - 1);
      ScanRow(s, lines[n - 1], n - 1, |lines[n - 1]|)
  }

  /** The first illegal character among the first `x` of `line`. */
  function FirstIllegal(line: string, x: nat): (r: Option<nat>)
    requires x <= |line|
    ensures r.Some? ==> r.value < x && !Legal(line[r.value]) && forall j :: 0 <= j < r.value ==> Legal(line[j])
    ensures r.None? ==> forall j :: 0 <= j < x ==> Legal(line[j])
  {
    if x == 0 then None
    else if FirstIllegal(line, x - 1).Some? then FirstIllegal(line, x - 1)
    else if !Legal(line[x - 1]) then Some(x - 1)
    else None
  }

  /** The last position among the first `x` characters of `line` holding `c`. */
  function LastIndex(line: string, c: char, x: nat): (r: Option<nat>)
    requires x <= |line|
    ensures r.Some? ==> r.value < x && line[r.value] == c && forall j :: r.value < j < x ==> line[j] != c
    ensures r.None? ==> forall j :: 0 <= j < x ==> line[j] != c
  {
    if x == 0 then None
    else if line[x - 1] == c then Some(x - 1)
    else LastIndex(line, c, x - 1)
  }

  /** The cells of a line of legal characters. */
  function Terrains(line: string): (r: seq<Cell>)
    ensures |r| == |line| && forall j :: 0 <= j < |line| ==> r[j] == Terrain(line[j])
  {
    seq(|line|, j requires 0 <= j < |line| => Terrain(line[j]))
  }

  /** `seen` updated with the last position of `c` in row `y`, if any. */
  function Latest(seen: Option<Point>, line: string, c: char, y: int, x: nat): Option<Point>
    requires x <= |line|
  {
    match LastIndex(line, c, x)
    case Some(i) => Some(Point(i, y))
    case None => seen
  }

  /** The scan of a row fails at its first illegal character; otherwise it
      pushes the row's cells and keeps the last S and the last E. */
  lemma {:induction false} ScanRowOutcome(s: Scan, line: string, y: int, x: nat)
    requires x <= |line|
    ensures FirstIllegal(line, x).Some? ==>
      ScanRow(s, line, y, x) == Err("illegal character: " + [line[FirstIllegal(line, x).value]])
    ensures FirstIllegal(line, x).None? ==>
      ScanRow(s, line, y, x) == Ok(Scan(s.data + Terrains(line[..x]), Latest(s.start, line, 'S', y, x), Latest(s.end, line, 'E', y, x)))
  {
    if x > 0 {
      ScanRowOutcome(s, line, y, x - 1);
      if FirstIllegal(line, x - 1).None? {
        var prev := ScanRow(s, line, y, x - 1).value;
        assert ScanRow(s, line, y, x) == Absorb(prev, line[x - 1], Point(x - 1, y));
        if Legal(line[x - 1]) {
          assert Terrains(line[..x]) == Terrains(line[..x - 1]) + [Terrain(line[x - 1])];
          assert s.data + Terrains(line[..x]) == prev.data + [Terrain(line[x - 1])];
          assert Latest(s.start, line, 'S', y, x) == if line[x - 1] == 'S' then Some(Point(x - 1, y)) else prev.start;
          assert Latest(s.end, line, 'E', y, x) == if line[x - 1] == 'E' then Some(Point(x - 1, y)) else prev.end;
        }
      }
    } else {
      assert s.data + Terrains(line[..0]) == s.data;
    }
  }

  /** The first illegal character of the first `n` rows, in scan order. */
  function FirstIllegalRow(lines: seq<string>, n: nat): (r: Option<Point>)
    requires n <= |lines|
    ensures r.Some? ==> 0 <= r.value.y < n && 0 <= r.value.x < |lines[r.value.y]|
    ensures r.Some? ==> !Legal(lines[r.value.y][r.value.x])
    ensures r.None? ==> forall y, x :: 0 <= y < n && 0 <= x < |lines[y]| ==> Legal(lines[y][x])
  {
    if n == 0 then None
    else if FirstIllegalRow(lines, n - 1).Some? then FirstIllegalRow(lines, n - 1)
    else match FirstIllegal(lines[n - 1], |lines[n - 1]|)
      case Some(x) => Some(Point(x, n - 1))
      case None => None
  }

  /** The last position holding `c` in the first `n` rows, in scan order. */
  function LastIn(lines: seq<string>, c: char, n: nat): (r: Option<Point>)
    requires n <= |lines|
    ensures r.Some? ==> 0 <= r.value.y < n && 0 <= r.value.x < |lines[r.value.y]| && lines[r.value.y][r.value.x] == c
    ensures r.Some? ==> forall y, x :: 0 <= y < n && 0 <= x < |lines[y]| && lines[y][x] == c ==>
      y < r.value.y || (y == r.value.y && x <= r.value.x)
    ensures r.None? ==> forall y, x :: 0 <= y < n && 0 <= x < |lines[y]| ==> lines[y][x] != c
  {
    if n == 0 then None
    else Latest(LastIn(lines, c, n - 1), lines[n - 1], c, n - 1, |lines[n - 1]|)
  }

  /** The cells of the rows, one sequence per row. */
  function TerrainRows(lines: seq<string>): (r: seq<seq<Cell>>)
    ensures |r| == |lines| && forall i :: 0 <= i < |lines| ==> r[i] == Terrains(lines[i])
  {
    seq(|lines|, i requires 0 <= i < |lines| => Terrains(lines[i]))
  }

  /** The scan of the first `n` rows fails at the first illegal character in
      scan order; otherwise its cells are the rows' cells laid end to end and
      it keeps the last S and the last E. */
  lemma {:induction false} ScanRowsOutcome(lines: seq<string>, n: nat)
    requires n <= |lines|
    ensures FirstIllegalRow(lines, n).Some? ==>
      var p := FirstIllegalRow(lines, n).value;
      ScanRows(lines, n) == Err("illegal character: " + [lines[p.y][p.x]])
    ensures FirstIllegalRow(lines, n).None? ==>
      ScanRows(lines, n) == Ok(Scan(Flatten(TerrainRows(lines)[..n]), LastIn(lines, 'S', n), LastIn(lines, 'E', n)))
  {
    if n > 0 {
      ScanRowsOutcome(lines, n - 1);
      if FirstIllegalRow(lines, n - 1).None? {
        var s := ScanRows(lines, n - 1).value;
        var line := lines[n - 1];
        ScanRowOutcome(s, line, n - 1, |line|);
        assert line[..|line|] == line;
        assert TerrainRows(lines)[..n][..n - 1] == TerrainRows(lines)[..n - 1];
      }
    }
  }

  /** `Grid::new`: all lines the same width, every character legal, and
      both an S and an E; the grid keeps the cells and the last E. */
  function ReadGrid(lines: seq<string>): Result<Grid>
  {
    if lines == [] || !SameWidth(lines) then Err("expected all lines to be the same length")
    else
      var scan :- ScanRows(lines, |lines|);
      if scan.start.Some? && scan.end.Some? then Ok(Grid(|lines[0]|, |lines|, scan.data, scan.end.value))
      else Err("failed to find start and/or end position")
  }

  /** Some character of `lines` is `c`. */
  predicate Holds(lines: seq<string>, c: char)
  {
    exists y, x :: 0 <= y < |lines| && 0 <= x < |lines[y]| && lines[y][x] == c
  }

  /** `Grid::new` succeeds exactly on equal-width rows of legal characters
      that hold an S and an E; the errors come in the order the source
      checks them. */
  lemma ReadGridOutcome(lines: seq<string>)
    ensures ReadGrid(lines).Ok? <==>
      lines != [] && SameWidth(lines) && FirstIllegalRow(lines, |lines|).None? && Holds(lines, 'S') && Holds(lines, 'E')
    ensures (lines == [] || !SameWidth(lines)) ==> ReadGrid(lines) == Err("expected all lines to be the same length")
    ensures lines != [] && SameWidth(lines) && FirstIllegalRow(lines, |lines|).Some? ==>
      var p := FirstIllegalRow(lines, |lines|).value;
      ReadGrid(lines) == Err("illegal character: " + [lines[p.y][p.x]])
  {
    if lines != [] && SameWidth(lines) {
      var n := |lines|;
      ScanRowsOutcome(lines, n);
      if FirstIllegalRow(lines, n).None? {
        LastInHolds(lines, 'S');
        LastInHolds(lines, 'E');
      }
    }
  }

  lemma LastInHolds(lines: seq<string>, c: char)
    ensures LastIn(lines, c, |lines|).Some? <==> Holds(lines, c)
  {
    if Holds(lines, c) {
      var y, x :| 0 <= y < |lines| && 0 <= x < |lines[y]| && lines[y][x] == c;
    }
  }

  /** `g` is the grid the rows draw: valid, of their size, each cell the
      terrain of its character, and the goal the last E in scan order. */
  ghost predicate Depicts(g: Grid, lines: seq<string>)
  {
    Valid(g) && lines != [] && SameWidth(lines) && g.width == |lines[0]| && g.height == |lines| &&
    (forall p {:trigger At(g, g.data, p)} :: InBounds(g.width, g.height, p) ==> At(g, g.data, p) == Terrain(lines[p.y][p.x])) &&
    lines[g.goal.y][g.goal.x] == 'E' &&
    (forall p {:trigger lines[p.y][p.x]} :: InBounds(g.width, g.height, p) && lines[p.y][p.x] == 'E' ==>
      p.y < g.goal.y || (p.y == g.goal.y && p.x <= g.goal.x))
  }

  /** On rows `Grid::new` accepts, the grid it builds is the one the rows draw. */
  lemma ReadGridCells(lines: seq<string>)
    requires lines != [] && SameWidth(lines) && FirstIllegalRow(lines, |lines|).None?
    requires Holds(lines, 'S') && Holds(lines, 'E')
    ensures ReadGrid(lines).Ok? && Depicts(ReadGrid(lines).value, lines)
  {
    var n := |lines|;
    var rows := TerrainRows(lines);
    var goal :| LastIn(lines, 'E', n) == Some(goal) by {
      LastInHolds(lines, 'E');
    }
    ReadGridBuilds(lines, goal);
    FlatDepicts(lines, goal);
  }

  /** The grid `Grid::new` builds from accepted rows: their cells, flattened,
      and the last E. */
  lemma ReadGridBuilds(lines: seq<string>, goal: Point)
    requires lines != [] && SameWidth(lines) && FirstIllegalRow(lines, |lines|).None?
    requires Holds(lines, 'S') && LastIn(lines, 'E', |lines|) == Some(goal)
    ensures ReadGrid(lines) == Ok(Grid(|lines[0]|, |lines|, Flatten(TerrainRows(lines)), goal))
  {
    var n := |lines|;
    var rows := TerrainRows(lines);
    LastInHolds(lines, 'S');
    ScanRowsOutcome(lines, n);
    WholePrefix(rows);
    assert ScanRows(lines, n) == Ok(Scan(Flatten(rows), LastIn(lines, 'S', n), Some(goal)));
  }

  lemma WholePrefix<T>(s: seq<T>)
    ensures s[..|s|] == s
  {
  }

  lemma FlatDepicts(lines: seq<string>, goal: Point)
    requires lines != [] && SameWidth(lines) && Holds(lines, 'E') && LastIn(lines, 'E', |lines|) == Some(goal)
    ensures Depicts(Grid(|lines[0]|, |lines|, Flatten(TerrainRows(lines)), goal), lines)
  {
    var rows := TerrainRows(lines);
    var w := |lines[0]|;
    FlatSize(rows, w);
    var g := Grid(w, |lines|, Flatten(rows), goal);
    forall p | InBounds(g.width, g.height, p)
      ensures At(g, g.data, p) == Terrain(lines[p.y][p.x])
    {
      assert |lines[p.y]| == w;
      FlatCell(rows, w, p);
    }
    assert At(g, g.data, goal) == Terrain(lines[goal.y][goal.x]);
  }

  lemma FlatSize<T>(rows: seq<seq<T>>, w: nat)
    requires forall i :: 0 <= i < |rows| ==> |rows[i]| == w
    ensures |Flatten(rows)| == w * |rows|
  {
    FlattenLength(rows, w);
    assert |rows| * w == w * |rows|;
  }

  lemma FlatCell<T>(rows: seq<seq<T>>, w: nat, p: Point)
    requires forall i :: 0 <= i < |rows| ==> |rows[i]| == w
    requires InBounds(w, |rows|, p)
    ensures 0 <= Index(w, p) < |Flatten(rows)| && Flatten(rows)[Index(w, p)] == rows[p.y][p.x]
  {
    FlattenIndex(rows, w);
  }

  /** `Grid::new` as the source writes it: a scan row by row, character by
      character, that pushes each cell and records S and E positions. */
  method NewGrid(lines: seq<string>) returns (r: Result<Grid>)
    ensures r == ReadGrid(lines)
  {
    if lines == [] || !SameWidth(lines) {
      return Err("expected all lines to be the same length");
    }
    var scan := Scan([], None, None);
    for y := 0 to |lines|
      invariant ScanRows(lines, y) == Ok(scan)
    {
      ghost var row := scan;
      var line := lines[y];
      for x := 0 to |line|
        invariant ScanRow(row, line, y, x) == Ok(scan)
      {
        var c := line[x];
        var cell := CellOf(c);
        if cell.Err? {
          assert ScanRow(row, line, y, x + 1) == Err(cell.msg);
          ScanRowFails(row, line, y, x + 1, |line|);
          ScanRowsFail(lines, y + 1, |lines|);
          return Err(cell.msg);
        }
        scan := Scan(scan.data + [cell.value],
                     if c == 'S' then Some(Point(x, y)) else scan.start,
                     if c == 'E' then Some(Point(x, y)) else scan.end);
      }
    }
    if scan.start.Some? && scan.end.Some? {
      return Ok(Grid(|lines[0]|, |lines|, scan.data, scan.end.value));
    }
    return Err("failed to find start and/or end position");
  }

  /** Once a row's scan fails, the rest of the row fails the same way. */
  lemma {:induction false} ScanRowFails(s: Scan, line: string, y: int, x: nat, m: nat)
    requires x <= m <= |line| && ScanRow(s, line, y, x).Err?
    ensures ScanRow(s, line, y, m) == ScanRow(s, line, y, x)
    decreases m - x
  {
    if x < m {
      ScanRowFails(s, line, y, x, m - 1);
    }
  }

  /** Once the scan of the rows fails, the later rows change nothing. */
  lemma {:induction false} ScanRowsFail(lines: seq<string>, n: nat, m: nat)
    requires n <= m <= |lines| && ScanRows(lines, n).Err?
    ensures ScanRows(lines, m) == ScanRows(lines, n)
    decreases m - n
  {
    if n < m {
      ScanRowsFail(lines, n, m - 1);
    }
  }

  // ---------------------------------------------------------------- routes

  predicate Adjacent(p: Point, q: Point)
  {
    q == Step(p, Left) || q == Step(p, Right) || q == Step(p, Up) || q == Step(p, Down)
  }

  /** `path` walks from the goal to `end` through empty cells, one step at a time. */
  ghost predicate Route(g: Grid, path: seq<Point>, end: Point)
    requires Sized(g)
  {
    |path| > 0 && path[0] == g.goal && path[|path| - 1] == end &&
    (forall i :: 0 <= i < |path| ==> Open(g, path[i])) &&
    (forall i :: 0 <= i < |path| - 1 ==> Adjacent(path[i], path[i + 1]))
  }

  /** `p` can be reached from the goal in `d` steps. */
  ghost predicate Reaches(g: Grid, p: Point, d: nat)
    requires Sized(g)
  {
    exists path :: Route(g, path, p) && |path| == d + 1
  }

  ghost predicate Reachable(g: Grid, p: Point)
    requires Sized(g)
  {
    exists path :: Route(g, path, p)
  }

  /** `d` is the fewest steps from the goal to `p`. */
  ghost predicate Shortest(g: Grid, p: Point, d: nat)
    requires Sized(g)
  {
    Reaches(g, p, d) && forall e: nat :: Reaches(g, p, e) ==> d <= e
  }

  /** Every empty cell can be reached from the goal. */
  ghost predicate AllReachable(g: Grid)
    requires Sized(g)
  {
    forall p :: Open(g, p) ==> Reachable(g, p)
  }

  lemma RouteExtend(g: Grid, path: seq<Point>, p: Point, q: Point)
    requires Sized(g) && Route(g, path, p) && Open(g, q) && Adjacent(p, q)
    ensures Route(g, path + [q], q)
  {
  }

  lemma RoutePrefix(g: Grid, path: seq<Point>, p: Point, j: nat)
    requires Sized(g) && Route(g, path, p) && j < |path|
    ensures Route(g, path[..j + 1], path[j]) && Reaches(g, path[j], j)
  {
    assert |path[..j + 1]| == j + 1;
  }

  /** A cell has only one fewest number of steps. */
  lemma ShortestUnique(g: Grid, p: Point, d: nat, e: nat)
    requires Sized(g) && Shortest(g, p, d) && Shortest(g, p, e)
    ensures d == e
  {
  }

  // ---------------------------------------------------------------- search

  datatype PathElement = Goal | Element(distance: nat)

  /** `effective_distance`: zero at the goal, the recorded distance at a
      reached cell, none at a cell not reached yet. */
  function Effective(e: Option<PathElement>): (r: Option<nat>)
    ensures r.None? <==> e.None?
    ensures e == Some(Goal) ==> r == Some(0)
    ensures e.Some? && e.value.Element? ==> r == Some(e.value.distance)
  {
    match e
    case None => None
    case Some(Goal) => Some(0)
    case Some(Element(d)) => Some(d)
  }

  /** `index`: the row-major slot of a point on the grid, an error off it. */
  function CellIndex(g: Grid, p: Point): (r: Result<nat>)
    ensures r.Ok? <==> InBounds(g.width, g.height, p)
    ensures r.Ok? ==> r.value < g.width * g.height && r.value == Index(g.width, p)
  {
    if InBounds(g.width, g.height, p) then
      IndexBounds(g.width, g.height, p);
      Ok(Index(g.width, p))
    else
      Err("out of bounds")
  }

  /** Different points on the grid have different slots. */
  lemma CellIndexInjective(g: Grid, p: Point, q: Point)
    requires CellIndex(g, p).Ok? && CellIndex(g, p) == CellIndex(g, q)
    ensures p == q
  {
    IndexInjective(g.width, g.height, p, q);
  }

  /** The distance recorded at `p`. */
  function Dist(g: Grid, graph: seq<Option<PathElement>>, p: Point): Option<nat>
    requires |graph| == g.width * g.height && InBounds(g.width, g.height, p)
  {
    Effective(At(g, graph, p))
  }

  /** The effective distances of the queued cells. */
  function Keys(g: Grid, graph: seq<Option<PathElement>>, queue: seq<Point>): (r: seq<Option<nat>>)
    requires |graph| == g.width * g.height
    requires forall i :: 0 <= i < |queue| ==> InBounds(g.width, g.height, queue[i])
    ensures |r| == |queue| && forall i :: 0 <= i < |queue| ==> r[i] == Dist(g, graph, queue[i])
  {
    seq(|queue|, i requires 0 <= i < |queue| => Dist(g, graph, queue[i]))
  }

  /** The neighbours in the order the search relaxes them. */
  const Around: seq<Direction> := [Left, Right, Up, Down]

  function Clear(n: nat): (r: seq<bool>)
    ensures |r| == n && forall i :: 0 <= i < n ==> !r[i]
  {
    seq(n, _ => false)
  }

  function Unreached(n: nat): (r: seq<Option<PathElement>>)
    ensures |r| == n && forall i :: 0 <= i < n ==> r[i].None?
  {
    seq(n, _ => None)
  }

  /** The queue holds distinct empty cells, each marked as queued, and every
      cell marked as queued is in it. */
  ghost predicate Queued(g: Grid, queue: seq<Point>, queued: seq<bool>)
    requires Sized(g)
  {
    |queued| == g.width * g.height &&
    (forall i :: 0 <= i < |queue| ==> Open(g, queue[i]) && At(g, queued, queue[i])) &&
    (forall p {:trigger At(g, queued, p)} :: InBounds(g.width, g.height, p) && At(g, queued, p) ==> Open(g, p) && p in queue) &&
    (forall p :: multiset(queue)[p] <= 1)
  }

  /** Every cell with a distance is empty and has a route of that many
      steps from the goal, recorded in `walks`. */
  ghost predicate Tracked(g: Grid, graph: seq<Option<PathElement>>, walks: map<Point, seq<Point>>)
    requires Sized(g)
  {
    |graph| == g.width * g.height &&
    forall p {:trigger At(g, graph, p)} :: InBounds(g.width, g.height, p) && At(g, graph, p).Some? ==>
      Open(g, p) && p in walks && Route(g, walks[p], p) && |walks[p]| == Dist(g, graph, p).value + 1
  }

  /** An empty cell taken off the queue. */
  predicate Settled(g: Grid, queued: seq<bool>, p: Point)
    requires Sized(g) && |queued| == g.width * g.height
  {
    Open(g, p) && !At(g, queued, p)
  }

  /** The distance at `p` is no more than any route's. */
  ghost predicate Exact(g: Grid, graph: seq<Option<PathElement>>, p: Point)
    requires Sized(g) && |graph| == g.width * g.height && InBounds(g.width, g.height, p)
  {
    Dist(g, graph, p).Some? && forall d: nat :: Reaches(g, p, d) ==> Dist(g, graph, p).value <= d
  }

  /** Every queued empty neighbour of `p` has a distance at most one more than `p`'s. */
  ghost predicate Bounded(g: Grid, queued: seq<bool>, graph: seq<Option<PathElement>>, p: Point)
    requires Sized(g) && |queued| == |graph| == g.width * g.height && InBounds(g.width, g.height, p)
    requires Dist(g, graph, p).Some?
  {
    forall d: Direction :: Open(g, Step(p, d)) && At(g, queued, Step(p, d)) ==>
      Dist(g, graph, Step(p, d)).Some? && Dist(g, graph, Step(p, d)).value <= Dist(g, graph, p).value + 1
  }

  /** Every settled cell holds its exact distance, and every one except
      perhaps `skip` has bounded its queued neighbours. */
  ghost predicate SettledBut(g: Grid, queued: seq<bool>, graph: seq<Option<PathElement>>, skip: Option<Point>)
    requires Sized(g) && |queued| == |graph| == g.width * g.height
  {
    forall p {:trigger Settled(g, queued, p)} :: Settled(g, queued, p) ==>
      Exact(g, graph, p) && (Some(p) != skip ==> Bounded(g, queued, graph, p))
  }

  /** The invariant of the main loop of `count_shortcuts`. */
  ghost predicate Searching(g: Grid, queue: seq<Point>, queued: seq<bool>,
                            graph: seq<Option<PathElement>>, walks: map<Point, seq<Point>>)
  {
    Valid(g) && |queued| == |graph| == g.width * g.height &&
    Queued(g, queue, queued) && Tracked(g, graph, walks) && SettledBut(g, queued, graph, None) &&
    At(g, graph, g.goal) == Some(Goal)
  }

  /** The column-by-column set-up scan has passed cell `p` once it reaches (x, y). */
  predicate Seen(p: Point, x: int, y: int)
  {
    p.x < x || (p.x == x && p.y < y)
  }

  /** The set-up state once the scan reaches (x, y): the empty cells seen so
      far are queued, once each, and the goal is marked once seen. */
  ghost predicate Enqueued(g: Grid, queue: seq<Point>, queued: seq<bool>,
                           graph: seq<Option<PathElement>>, x: int, y: int)
  {
    Valid(g) && |queued| == |graph| == g.width * g.height &&
    (forall i :: 0 <= i < |queue| ==> Open(g, queue[i]) && At(g, queued, queue[i])) &&
    (forall p :: multiset(queue)[p] <= 1) &&
    (forall p {:trigger At(g, queued, p)} :: InBounds(g.width, g.height, p) ==> (At(g, queued, p) <==> Open(g, p) && Seen(p, x, y))) &&
    (forall p {:trigger At(g, queued, p)} :: InBounds(g.width, g.height, p) && At(g, queued, p) ==> p in queue) &&
    (forall p {:trigger At(g, graph, p)} :: InBounds(g.width, g.height, p) ==>
      At(g, graph, p) == if p == g.goal && Seen(p, x, y) then Some(Goal) else None)
  }

  lemma SetUpStart(g: Grid)
    requires Valid(g)
    ensures Enqueued(g, [], Clear(g.width * g.height), Unreached(g.width * g.height), 0, 0)
  {
    var queued, graph := Clear(g.width * g.height), Unreached(g.width * g.height);
    forall p | InBounds(g.width, g.height, p)
      ensures !At(g, queued, p) && At(g, graph, p).None?
    {
      IndexBounds(g.width, g.height, p);
    }
  }

  lemma NextColumn(g: Grid, queue: seq<Point>, queued: seq<bool>, graph: seq<Option<PathElement>>, x: int)
    requires Enqueued(g, queue, queued, graph, x, g.height)
    ensures Enqueued(g, queue, queued, graph, x + 1, 0)
  {
    assert forall p :: InBounds(g.width, g.height, p) ==> (Seen(p, x, g.height) <==> Seen(p, x + 1, 0));
  }

  /** One cell of the set-up scan. */
  lemma EnqueueCell(g: Grid, queue: seq<Point>, queued: seq<bool>, graph: seq<Option<PathElement>>, p: Point)
    requires Enqueued(g, queue, queued, graph, p.x, p.y) && InBounds(g.width, g.height, p)
    ensures Open(g, p) && p == g.goal ==>
      Enqueued(g, queue + [p], Put(g.width, g.height, queued, p, true),
               Put(g.width, g.height, graph, p, Some(Goal)), p.x, p.y + 1)
    ensures Open(g, p) && p != g.goal ==>
      Enqueued(g, queue + [p], Put(g.width, g.height, queued, p, true), graph, p.x, p.y + 1)
    ensures !Open(g, p) ==> Enqueued(g, queue, queued, graph, p.x, p.y + 1)
  {
    AtPut(g, queued, p, true);
    AtPut(g, graph, p, Some(Goal));
    assert forall i :: 0 <= i < |queue| ==> queue[i] != p;
    assert multiset(queue + [p]) == multiset(queue) + multiset{p};
  }

  /** The set-up loops of `count_shortcuts`: column by column, each empty
      cell joins the queue, and the goal gets distance zero. */
  method Enqueue(g: Grid) returns (queue: seq<Point>, queued: seq<bool>, graph: seq<Option<PathElement>>)
    requires Valid(g)
    ensures Enqueued(g, queue, queued, graph, g.width, 0)
  {
    queue := [];
    queued := Clear(g.width * g.height);
    graph := Unreached(g.width * g.height);
    SetUpStart(g);
    for x := 0 to g.width
      invariant Enqueued(g, queue, queued, graph, x, 0)
    {
      for y := 0 to g.height
        invariant Enqueued(g, queue, queued, graph, x, y)
      {
        var p := Point(x, y);
        var i := CellIndex(g, p).value;
        EnqueueCell(g, queue, queued, graph, p);
        if g.data[i] == Empty {
          queue := queue + [p];
          queued := Put(g.width, g.height, queued, p, true);
          if p == g.goal {
            graph := Put(g.width, g.height, graph, p, Some(Goal));
          }
        }
      }
      NextColumn(g, queue, queued, graph, x);
    }
  }

  /** After the set-up every empty cell is queued and only the goal has a
      distance. */
  lemma SetUpDone(g: Grid, queue: seq<Point>, queued: seq<bool>, graph: seq<Option<PathElement>>)
    requires Enqueued(g, queue, queued, graph, g.width, 0)
    ensures Searching(g, queue, queued, graph, map[g.goal := [g.goal]])
  {
    assert Route(g, [g.goal], g.goal);
  }

  /** Taking `queue[i]` off the queue keeps the queue bookkeeping. */
  lemma Popped(g: Grid, queue: seq<Point>, queued: seq<bool>, i: nat)
    requires Sized(g) && Queued(g, queue, queued) && i < |queue|
    ensures Queued(g, SwapRemove(queue, i), Put(g.width, g.height, queued, queue[i], false))
  {
    var next := queue[i];
    var queue', queued' := SwapRemove(queue, i), Put(g.width, g.height, queued, next, false);
    AtPut(g, queued, next, false);
    assert multiset(queue)[next] == 1;
    forall k | 0 <= k < |queue'|
      ensures Open(g, queue'[k]) && At(g, queued', queue'[k])
    {
      var q := queue'[k];
      assert q in multiset(queue');
      assert q in multiset(queue);
      assert q != next;
    }
    forall p | InBounds(g.width, g.height, p) && At(g, queued', p)
      ensures Open(g, p) && p in queue'
    {
      assert multiset(queue')[p] == multiset(queue)[p];
    }
  }

  /** Along a route from the goal to a queued cell, the cells up to the
      first queued one have distances no larger than their places on the
      route, so some queued cell has a distance no larger than the route's
      length. */
  lemma {:induction false} Frontier(g: Grid, queue: seq<Point>, queued: seq<bool>,
                                    graph: seq<Option<PathElement>>, walks: map<Point, seq<Point>>,
                                    path: seq<Point>, end: Point, j: nat)
    requires Searching(g, queue, queued, graph, walks)
    requires Route(g, path, end) && At(g, queued, end) && j < |path|
    requires Dist(g, graph, path[j]).Some? && Dist(g, graph, path[j]).value <= j
    ensures exists k :: 0 <= k < |queue| && Dist(g, graph, queue[k]).Some? &&
                        Dist(g, graph, queue[k]).value <= |path| - 1
    decreases |path| - j
  {
    var p := path[j];
    if At(g, queued, p) {
      var k :| 0 <= k < |queue| && queue[k] == p;
    } else {
      assert Settled(g, queued, p);
      var q := path[j + 1];
      assert Adjacent(p, q);
      var d: Direction :| q == Step(p, d);
      assert Bounded(g, queued, graph, p);
      if !At(g, queued, q) {
        assert Settled(g, queued, q);
        RoutePrefix(g, path, end, j + 1);
      }
      Frontier(g, queue, queued, graph, walks, path, end, j + 1);
    }
  }

  /** The queued cell the search picks holds the fewest steps of any route
      to it. */
  lemma PickedExact(g: Grid, queue: seq<Point>, queued: seq<bool>,
                    graph: seq<Option<PathElement>>, walks: map<Point, seq<Point>>, i: nat)
    requires Searching(g, queue, queued, graph, walks) && i < |queue|
    requires i == Pick(Keys(g, graph, queue)) && Dist(g, graph, queue[i]).Some?
    ensures Exact(g, graph, queue[i])
  {
    var keys := Keys(g, graph, queue);
    forall d: nat | Reaches(g, queue[i], d)
      ensures Dist(g, graph, queue[i]).value <= d
    {
      var path :| Route(g, path, queue[i]) && |path| == d + 1;
      Frontier(g, queue, queued, graph, walks, path, queue[i], 0);
      var k :| 0 <= k < |queue| && Dist(g, graph, queue[k]).Some? && Dist(g, graph, queue[k]).value <= d;
      assert !Above(keys[k], keys[i]);
    }
  }

  /** When no queued cell has a distance, no queued cell can be reached. */
  lemma NothingReached(g: Grid, queue: seq<Point>, queued: seq<bool>,
                       graph: seq<Option<PathElement>>, walks: map<Point, seq<Point>>, i: nat)
    requires Searching(g, queue, queued, graph, walks) && i < |queue|
    requires forall k :: 0 <= k < |queue| ==> Dist(g, graph, queue[k]).None?
    ensures Open(g, queue[i]) && !Reachable(g, queue[i])
  {
    if Reachable(g, queue[i]) {
      var path :| Route(g, path, queue[i]);
      Frontier(g, queue, queued, graph, walks, path, queue[i], 0);
    }
  }

  /** The state of the neighbour loop after `k` of the four neighbours of
      `next`, which holds its exact distance `current`: the routes and the
      settled cells are kept, and every queued empty neighbour seen so far
      is at most one step further. */
  ghost predicate Relaxing(g: Grid, next: Point, current: nat, queue: seq<Point>, queued: seq<bool>,
                           graph: seq<Option<PathElement>>, walks: map<Point, seq<Point>>, k: nat)
  {
    Valid(g) && |queued| == |graph| == g.width * g.height && k <= 4 &&
    Queued(g, queue, queued) && Settled(g, queued, next) &&
    Tracked(g, graph, walks) && SettledBut(g, queued, graph, Some(next)) &&
    At(g, graph, g.goal) == Some(Goal) && Dist(g, graph, next) == Some(current) &&
    (forall j :: 0 <= j < k && Open(g, Step(next, Around[j])) && At(g, queued, Step(next, Around[j])) ==>
      Dist(g, graph, Step(next, Around[j])).Some? && Dist(g, graph, Step(next, Around[j])).value <= current + 1)
  }

  /** A neighbour that is off the grid, no longer queued, or already as close
      is left alone. */
  lemma RelaxSkip(g: Grid, next: Point, current: nat, queue: seq<Point>, queued: seq<bool>,
                  graph: seq<Option<PathElement>>, walks: map<Point, seq<Point>>, k: nat)
    requires Relaxing(g, next, current, queue, queued, graph, walks, k) && k < 4
    requires var n := Step(next, Around[k]);
      !InBounds(g.width, g.height, n) || !At(g, queued, n) ||
      (Dist(g, graph, n).Some? && Dist(g, graph, n).value <= current + 1)
    ensures Relaxing(g, next, current, queue, queued, graph, walks, k + 1)
  {
  }

  /** Giving the queued neighbour `Around[k]` of `next` the distance
      `current + 1`, when it had none or a larger one, keeps the routes and
      the settled cells' bounds. */
  lemma RelaxOne(g: Grid, next: Point, current: nat, queue: seq<Point>, queued: seq<bool>,
                 graph: seq<Option<PathElement>>, walks: map<Point, seq<Point>>, k: nat)
    requires Relaxing(g, next, current, queue, queued, graph, walks, k) && k < 4
    requires var n := Step(next, Around[k]);
      InBounds(g.width, g.height, n) && At(g, queued, n) &&
      (Dist(g, graph, n).None? || current + 1 < Dist(g, graph, n).value)
    ensures var n := Step(next, Around[k]);
      Relaxing(g, next, current, queue, queued, Put(g.width, g.height, graph, n, Some(Element(current + 1))),
               walks[n := walks[next] + [n]], k + 1)
  {
    var n := Step(next, Around[k]);
    var graph' := Put(g.width, g.height, graph, n, Some(Element(current + 1)));
    var walks' := walks[n := walks[next] + [n]];
    AtPut(g, graph, n, Some(Element(current + 1)));
    assert n != g.goal;
    RouteExtend(g, walks[next], next, n);
    forall p | Settled(g, queued, p)
      ensures Exact(g, graph', p) && (p != next ==> Bounded(g, queued, graph', p))
    {
      assert p != n;
      if p != next {
        assert Bounded(g, queued, graph, p);
      }
    }
    forall j | 0 <= j < k
      ensures Step(next, Around[j]) != n
    {
    }
  }

  /** The loop over the four neighbours of `next`: each neighbour still in
      the queue whose distance is unknown or larger than one more than
      `next`'s takes that distance. */
  method Relax(g: Grid, next: Point, current: nat, queue: seq<Point>, queued: seq<bool>,
               graph: seq<Option<PathElement>>, ghost walks: map<Point, seq<Point>>)
    returns (graph': seq<Option<PathElement>>, ghost walks': map<Point, seq<Point>>)
    requires Relaxing(g, next, current, queue, queued, graph, walks, 0)
    ensures Searching(g, queue, queued, graph', walks')
  {
    graph', walks' := graph, walks;
    for k := 0 to 4
      invariant Relaxing(g, next, current, queue, queued, graph', walks', k)
    {
      var neighbor := Step(next, Around[k]);
      var index := CellIndex(g, neighbor);
      if index.Ok? && queued[index.value] {
        var existing := Effective(graph'[index.value]);
        var proposed := current + 1;
        var replace := if existing.Some? then proposed < existing.value else true;
        if replace {
          RelaxOne(g, next, current, queue, queued, graph', walks', k);
          graph' := Put(g.width, g.height, graph', neighbor, Some(Element(proposed)));
          walks' := walks'[neighbor := walks'[next] + [neighbor]];
        } else {
          RelaxSkip(g, next, current, queue, queued, graph', walks', k);
        }
      } else {
        RelaxSkip(g, next, current, queue, queued, graph', walks', k);
      }
    }
    RelaxDone(g, next, current, queue, queued, graph', walks');
  }

  /** After all four neighbours, `next` has bounded its neighbours too. */
  lemma RelaxDone(g: Grid, next: Point, current: nat, queue: seq<Point>, queued: seq<bool>,
                  graph: seq<Option<PathElement>>, walks: map<Point, seq<Point>>)
    requires Relaxing(g, next, current, queue, queued, graph, walks, 4)
    ensures Searching(g, queue, queued, graph, walks)
  {
    forall d: Direction | Open(g, Step(next, d)) && At(g, queued, Step(next, d))
      ensures Dist(g, graph, Step(next, d)).Some? && Dist(g, graph, Step(next, d)).value <= current + 1
    {
      assert d == Around[0] || d == Around[1] || d == Around[2] || d == Around[3];
    }
    assert Bounded(g, queued, graph, next);
  }

  /** One round of the main loop once `queue[i]`, the cell `max_by` picks,
      is known to have a distance: take it off the queue and relax its
      neighbours. */
  /** Taking the picked cell off the queue settles it and keeps every other
      settled cell bounded. */
  lemma Settle(g: Grid, queue: seq<Point>, queued: seq<bool>,
               graph: seq<Option<PathElement>>, walks: map<Point, seq<Point>>, i: nat)
    requires Searching(g, queue, queued, graph, walks) && i < |queue| && Exact(g, graph, queue[i])
    ensures SettledBut(g, Put(g.width, g.height, queued, queue[i], false), graph, Some(queue[i]))
    ensures Settled(g, Put(g.width, g.height, queued, queue[i], false), queue[i])
  {
    var next := queue[i];
    var queued' := Put(g.width, g.height, queued, next, false);
    AtPut(g, queued, next, false);
    forall p | Settled(g, queued', p)
      ensures Exact(g, graph, p) && (Some(p) != Some(next) ==> Bounded(g, queued', graph, p))
    {
      if p != next {
        assert Settled(g, queued, p);
        assert Bounded(g, queued, graph, p);
        forall d: Direction | Open(g, Step(p, d)) && At(g, queued', Step(p, d))
          ensures Dist(g, graph, Step(p, d)).Some? && Dist(g, graph, Step(p, d)).value <= Dist(g, graph, p).value + 1
        {
          assert At(g, queued, Step(p, d));
        }
      }
    }
  }

  method Visit(g: Grid, queue: seq<Point>, queued: seq<bool>,
               graph: seq<Option<PathElement>>, ghost walks: map<Point, seq<Point>>, i: nat)
    returns (queue': seq<Point>, queued': seq<bool>, graph': seq<Option<PathElement>>,
             ghost walks': map<Point, seq<Point>>)
    requires Searching(g, queue, queued, graph, walks) && i < |queue|
    requires i == Pick(Keys(g, graph, queue)) && Dist(g, graph, queue[i]).Some?
    ensures Searching(g, queue', queued', graph', walks') && |queue'| < |queue|
  {
    var next := queue[i];
    PickedExact(g, queue, queued, graph, walks, i);
    Settle(g, queue, queued, graph, walks, i);
    Popped(g, queue, queued, i);
    queue' := SwapRemove(queue, i);
    queued' := Put(g.width, g.height, queued, next, false);
    AtPut(g, queued, next, false);
    var current := Dist(g, graph, next).value;
    assert Relaxing(g, next, current, queue', queued', graph, walks, 0);
    graph', walks' := Relax(g, next, current, queue', queued', graph, walks);
  }

  /** `graph` holds, at every empty cell, the fewest steps from the goal to
      it, and nothing at a wall. */
  ghost predicate Distances(g: Grid, graph: seq<Option<PathElement>>)
    requires Valid(g)
  {
    |graph| == g.width * g.height &&
    forall p {:trigger At(g, graph, p)} :: InBounds(g.width, g.height, p) ==>
      if Open(g, p) then Dist(g, graph, p).Some? && Shortest(g, p, Dist(g, graph, p).value)
      else At(g, graph, p).None?
  }

  /** Once the queue is empty every empty cell is settled with its exact
      distance. */
  lemma SearchDone(g: Grid, queued: seq<bool>, graph: seq<Option<PathElement>>, walks: map<Point, seq<Point>>)
    requires Searching(g, [], queued, graph, walks)
    ensures Distances(g, graph) && AllReachable(g)
  {
    forall p | InBounds(g.width, g.height, p)
      ensures if Open(g, p) then Dist(g, graph, p).Some? && Shortest(g, p, Dist(g, graph, p).value)
              else At(g, graph, p).None?
    {
      if Open(g, p) {
        assert Settled(g, queued, p);
        assert Route(g, walks[p], p);
      }
    }
  }

  /** The distance field of `count_shortcuts`: a search seeded at the goal
      that relaxes the four neighbours of the queued cell nearest the goal.
      It fails exactly when some empty cell cannot be reached from the goal;
      otherwise every empty cell holds its fewest steps to the goal. */
  method Search(g: Grid) returns (r: Result<seq<Option<PathElement>>>)
    requires Valid(g)
    ensures r.Ok? <==> AllReachable(g)
    ensures r.Ok? ==> Distances(g, r.value)
    ensures r.Err? ==>
      r.msg == NoDistance
  {
    var queue, queued, graph := Enqueue(g);
    ghost var walks := map[g.goal := [g.goal]];
    SetUpDone(g, queue, queued, graph);
    while queue != []
      invariant Searching(g, queue, queued, graph, walks)
      decreases |queue|
    {
      var keys := Keys(g, graph, queue);
      var i := Pick(keys);
      if keys[i].None? {
        PickedNothing(keys, i);
        NothingReached(g, queue, queued, graph, walks, i);
        return Err(NoDistance);
      }
      queue, queued, graph, walks := Visit(g, queue, queued, graph, walks, i);
    }
    SearchDone(g, queued, graph, walks);
    return Ok(graph);
  }

  // ---------------------------------------------------------------- shortcuts

  /** `unwrap_or(0)` on a distance. */
  function OrZero(d: Option<nat>): nat
  {
    if d.Some? then d.value else 0
  }

  /** A jump from `before` through the wall next to it in direction `d1`
      onto the empty cell beyond it in direction `d2`, other than `before`. */
  predicate Shortcut(g: Grid, before: Point, d1: Direction, d2: Direction)
    requires Sized(g)
  {
    var wall := Step(before, d1);
    var after := Step(wall, d2);
    InBounds(g.width, g.height, before) &&
    InBounds(g.width, g.height, wall) && At(g, g.data, wall) == Wall &&
    after != before && Open(g, after)
  }

  /** The time a shortcut saves, as the source records it: the distance from
      `before` less the distance from the landing cell and the two steps of
      the jump, kept only when positive; a cell without a distance counts
      as zero. */
  function Gain(g: Grid, graph: seq<Option<PathElement>>, before: Point, d1: Direction, d2: Direction): (r: Option<nat>)
    requires Sized(g) && |graph| == g.width * g.height
    ensures r.Some? ==> Shortcut(g, before, d1, d2) && r.value >= 1
  {
    if Shortcut(g, before, d1, d2) then
      var without := OrZero(Dist(g, graph, before));
      var with := OrZero(Dist(g, graph, Step(Step(before, d1), d2))) + 2;
      if with < without then Some(without - with) else None
    else None
  }

  function Listed(o: Option<nat>): (r: seq<nat>)
    ensures |r| <= 1 && forall s :: s in r <==> o == Some(s)
  {
    if o.Some? then [o.value] else []
  }

  /** The savings of the jumps from `before` through direction `d1`, landing
      in the first `j` directions of `Around`. */
  function Lands(g: Grid, graph: seq<Option<PathElement>>, before: Point, d1: Direction, j: nat): seq<nat>
    requires Sized(g) && |graph| == g.width * g.height && j <= 4
  {
    if j == 0 then []
    else Lands(g, graph, before, d1, j - 1) + Listed(Gain(g, graph, before, d1, Around[j - 1]))
  }

  /** The savings of the jumps from `before` through the first `i`
      directions of `Around`. */
  function Jumps(g: Grid, graph: seq<Option<PathElement>>, before: Point, i: nat): seq<nat>
    requires Sized(g) && |graph| == g.width * g.height && i <= 4
  {
    if i == 0 then []
    else Jumps(g, graph, before, i - 1) + Lands(g, graph, before, Around[i - 1], 4)
  }

  /** The savings found from the first `x` cells of row `y`. */
  function RowGains(g: Grid, graph: seq<Option<PathElement>>, y: int, x: nat): seq<nat>
    requires Sized(g) && |graph| == g.width * g.height && 0 <= y < g.height && x <= g.width
  {
    if x == 0 then []
    else RowGains(g, graph, y, x - 1) + Jumps(g, graph, Point(x - 1, y), 4)
  }

  /** The savings found from the first `n` rows, in the order of the scan
      of `count_shortcuts`: row by row, cell by cell, wall direction by wall
      direction, landing direction by landing direction. */
  function Savings(g: Grid, graph: seq<Option<PathElement>>, n: nat): seq<nat>
    requires Sized(g) && |graph| == g.width * g.height && n <= g.height
  {
    if n == 0 then []
    else Savings(g, graph, n - 1) + RowGains(g, graph, n - 1, g.width)
  }

  /** Any direction is one of the four of `Around`. */
  lemma AroundAll(d: Direction)
    ensures exists a :: 0 <= a < 4 && Around[a] == d
  {
    assert d == Around[0] || d == Around[1] || d == Around[2] || d == Around[3];
  }

  lemma {:induction false} LandsMembers(g: Grid, graph: seq<Option<PathElement>>, before: Point, d1: Direction, j: nat)
    requires Sized(g) && |graph| == g.width * g.height && j <= 4
    ensures forall s :: s in Lands(g, graph, before, d1, j) <==>
      exists b :: 0 <= b < j && Gain(g, graph, before, d1, Around[b]) == Some(s)
  {
    if j > 0 {
      LandsMembers(g, graph, before, d1, j - 1);
    }
  }

  lemma JumpsMembers(g: Grid, graph: seq<Option<PathElement>>, before: Point, i: nat)
    requires Sized(g) && |graph| == g.width * g.height && i <= 4
    ensures forall s :: s in Jumps(g, graph, before, i) <==>
      exists a, b :: 0 <= a < i && 0 <= b < 4 && Gain(g, graph, before, Around[a], Around[b]) == Some(s)
  {
    JumpsSound(g, graph, before, i);
    JumpsComplete(g, graph, before, i);
  }

  lemma {:induction false} JumpsSound(g: Grid, graph: seq<Option<PathElement>>, before: Point, i: nat)
    requires Sized(g) && |graph| == g.width * g.height && i <= 4
    ensures forall s :: s in Jumps(g, graph, before, i) ==>
      exists a, b :: 0 <= a < i && 0 <= b < 4 && Gain(g, graph, before, Around[a], Around[b]) == Some(s)
  {
    if i > 0 {
      var rest, last := Jumps(g, graph, before, i - 1), Lands(g, graph, before, Around[i - 1], 4);
      assert Jumps(g, graph, before, i) == rest + last;
      forall s | s in Jumps(g, graph, before, i)
        ensures exists a, b :: 0 <= a < i && 0 <= b < 4 && Gain(g, graph, before, Around[a], Around[b]) == Some(s)
      {
        if s in rest {
          JumpsSound(g, graph, before, i - 1);
          var a, b :| 0 <= a < i - 1 && 0 <= b < 4 && Gain(g, graph, before, Around[a], Around[b]) == Some(s);
          assert 0 <= a < i;
        } else {
          assert s in last;
          LandsMembers(g, graph, before, Around[i - 1], 4);
          var b :| 0 <= b < 4 && Gain(g, graph, before, Around[i - 1], Around[b]) == Some(s);
          assert 0 <= i - 1 < i;
        }
      }
    }
  }

  lemma {:induction false} JumpsComplete(g: Grid, graph: seq<Option<PathElement>>, before: Point, i: nat)
    requires Sized(g) && |graph| == g.width * g.height && i <= 4
    ensures forall s, a, b :: 0 <= a < i && 0 <= b < 4 && Gain(g, graph, before, Around[a], Around[b]) == Some(s) ==>
      s in Jumps(g, graph, before, i)
  {
    if i > 0 {
      var rest, last := Jumps(g, graph, before, i - 1), Lands(g, graph, before, Around[i - 1], 4);
      assert Jumps(g, graph, before, i) == rest + last;
      forall s, a, b | 0 <= a < i && 0 <= b < 4 && Gain(g, graph, before, Around[a], Around[b]) == Some(s)
        ensures s in Jumps(g, graph, before, i)
      {
        if a < i - 1 {
          JumpsComplete(g, graph, before, i - 1);
          assert s in rest;
        } else {
          LandsMembers(g, graph, before, Around[i - 1], 4);
          assert s in last;
        }
      }
    }
  }

  /** Some shortcut from `p` saves `s`. */
  ghost predicate Saves(g: Grid, graph: seq<Option<PathElement>>, p: Point, s: nat)
    requires Sized(g) && |graph| == g.width * g.height
  {
    exists d1, d2 :: Gain(g, graph, p, d1, d2) == Some(s)
  }

  /** The savings listed for one cell are those of its shortcuts. */
  lemma CellMembers(g: Grid, graph: seq<Option<PathElement>>, before: Point)
    requires Sized(g) && |graph| == g.width * g.height
    ensures forall s :: s in Jumps(g, graph, before, 4) <==> Saves(g, graph, before, s)
  {
    JumpsMembers(g, graph, before, 4);
    forall s | Saves(g, graph, before, s)
      ensures s in Jumps(g, graph, before, 4)
    {
      var d1, d2 :| Gain(g, graph, before, d1, d2) == Some(s);
      AroundAll(d1);
      AroundAll(d2);
    }
  }

  lemma {:induction false} RowMembers(g: Grid, graph: seq<Option<PathElement>>, y: int, x: nat)
    requires Sized(g) && |graph| == g.width * g.height && 0 <= y < g.height && x <= g.width
    ensures forall s :: s in RowGains(g, graph, y, x) <==>
      exists c :: 0 <= c < x && Saves(g, graph, Point(c, y), s)
  {
    if x > 0 {
      RowMembers(g, graph, y, x - 1);
      CellMembers(g, graph, Point(x - 1, y));
    }
  }

  /** The savings the scan of the first `n` rows lists are exactly those of
      the shortcuts starting in those rows. */
  lemma SavingsMembers(g: Grid, graph: seq<Option<PathElement>>, n: nat)
    requires Sized(g) && |graph| == g.width * g.height && n <= g.height
    ensures forall s :: s in Savings(g, graph, n) <==>
      exists y, x :: 0 <= y < n && 0 <= x < g.width && Saves(g, graph, Point(x, y), s)
  {
    SavingsSound(g, graph, n);
    SavingsComplete(g, graph, n);
  }

  lemma {:induction false} SavingsSound(g: Grid, graph: seq<Option<PathElement>>, n: nat)
    requires Sized(g) && |graph| == g.width * g.height && n <= g.height
    ensures forall s :: s in Savings(g, graph, n) ==>
      exists y, x :: 0 <= y < n && 0 <= x < g.width && Saves(g, graph, Point(x, y), s)
  {
    if n > 0 {
      assert Savings(g, graph, n) == Savings(g, graph, n - 1) + RowGains(g, graph, n - 1, g.width);
      forall s | s in Savings(g, graph, n)
        ensures exists y, x :: 0 <= y < n && 0 <= x < g.width && Saves(g, graph, Point(x, y), s)
      {
        if s in Savings(g, graph, n - 1) {
          SavingsSound(g, graph, n - 1);
          var y, x :| 0 <= y < n - 1 && 0 <= x < g.width && Saves(g, graph, Point(x, y), s);
          assert 0 <= y < n;
        } else {
          assert s in RowGains(g, graph, n - 1, g.width);
          RowMembers(g, graph, n - 1, g.width);
          var x :| 0 <= x < g.width && Saves(g, graph, Point(x, n - 1), s);
          assert 0 <= n - 1 < n;
        }
      }
    }
  }

  lemma {:induction false} SavingsComplete(g: Grid, graph: seq<Option<PathElement>>, n: nat)
    requires Sized(g) && |graph| == g.width * g.height && n <= g.height
    ensures forall s, y, x :: 0 <= y < n && 0 <= x < g.width && Saves(g, graph, Point(x, y), s) ==>
      s in Savings(g, graph, n)
  {
    if n > 0 {
      assert Savings(g, graph, n) == Savings(g, graph, n - 1) + RowGains(g, graph, n - 1, g.width);
      forall s, y, x | 0 <= y < n && 0 <= x < g.width && Saves(g, graph, Point(x, y), s)
        ensures s in Savings(g, graph, n)
      {
        if y < n - 1 {
          SavingsComplete(g, graph, n - 1);
          assert s in Savings(g, graph, n - 1);
        } else {
          RowMembers(g, graph, n - 1, g.width);
          assert s in RowGains(g, graph, n - 1, g.width);
        }
      }
    }
  }

  /** Every listed saving is at least one step. */
  lemma SavingsPositive(g: Grid, graph: seq<Option<PathElement>>)
    requires Sized(g) && |graph| == g.width * g.height
    ensures forall i :: 0 <= i < |Savings(g, graph, g.height)| ==> Savings(g, graph, g.height)[i] >= 1
  {
    var r := Savings(g, graph, g.height);
    SavingsMembers(g, graph, g.height);
    forall i | 0 <= i < |r| ensures r[i] >= 1 {
      assert r[i] in r;
      var y, x :| 0 <= y < g.height && 0 <= x < g.width && Saves(g, graph, Point(x, y), r[i]);
      var d1, d2 :| Gain(g, graph, Point(x, y), d1, d2) == Some(r[i]);
    }
  }

  /** With exact distances, a shortcut from an empty cell saves the fewest
      steps from it less the fewest steps from the landing cell and the two
      steps of the jump, whenever that is positive. */
  lemma GainMeaning(g: Grid, graph: seq<Option<PathElement>>, before: Point, d1: Direction, d2: Direction, a: nat, b: nat)
    requires Valid(g) && Distances(g, graph) && Shortcut(g, before, d1, d2) && Open(g, before)
    requires Shortest(g, before, a) && Shortest(g, Step(Step(before, d1), d2), b)
    ensures Gain(g, graph, before, d1, d2) == if b + 2 < a then Some(a - b - 2) else None
  {
    var after := Step(Step(before, d1), d2);
    ShortestUnique(g, before, a, Dist(g, graph, before).value);
    ShortestUnique(g, after, b, Dist(g, graph, after).value);
  }

  /** A jump that starts on a wall saves nothing. */
  lemma GainFromWall(g: Grid, graph: seq<Option<PathElement>>, before: Point, d1: Direction, d2: Direction)
    requires Valid(g) && Distances(g, graph) && InBounds(g.width, g.height, before) && !Open(g, before)
    ensures Gain(g, graph, before, d1, d2).None?
  {
  }

  /** Two exact distance fields give the same savings, so the answer does
      not depend on which field the search built. */
  lemma SavingsDetermined(g: Grid, a: seq<Option<PathElement>>, b: seq<Option<PathElement>>, n: nat)
    requires Valid(g) && Distances(g, a) && Distances(g, b) && n <= g.height
    ensures Savings(g, a, n) == Savings(g, b, n)
  {
    forall p | InBounds(g.width, g.height, p)
      ensures Dist(g, a, p) == Dist(g, b, p)
    {
      if Open(g, p) {
        ShortestUnique(g, p, Dist(g, a, p).value, Dist(g, b, p).value);
      }
    }
    SavingsAgree(g, a, b, n);
  }

  lemma {:induction false} SavingsAgree(g: Grid, a: seq<Option<PathElement>>, b: seq<Option<PathElement>>, n: nat)
    requires Sized(g) && |a| == |b| == g.width * g.height && n <= g.height
    requires forall p {:trigger Dist(g, a, p)} {:trigger Dist(g, b, p)} :: InBounds(g.width, g.height, p) ==> Dist(g, a, p) == Dist(g, b, p)
    ensures Savings(g, a, n) == Savings(g, b, n)
  {
    if n > 0 {
      SavingsAgree(g, a, b, n - 1);
      RowGainsAgree(g, a, b, n - 1, g.width);
    }
  }

  lemma {:induction false} RowGainsAgree(g: Grid, a: seq<Option<PathElement>>, b: seq<Option<PathElement>>, y: int, x: nat)
    requires Sized(g) && |a| == |b| == g.width * g.height && 0 <= y < g.height && x <= g.width
    requires forall p {:trigger Dist(g, a, p)} {:trigger Dist(g, b, p)} :: InBounds(g.width, g.height, p) ==> Dist(g, a, p) == Dist(g, b, p)
    ensures RowGains(g, a, y, x) == RowGains(g, b, y, x)
  {
    if x > 0 {
      RowGainsAgree(g, a, b, y, x - 1);
      var p := Point(x - 1, y);
      assert forall d1, d2 :: Gain(g, a, p, d1, d2) == Gain(g, b, p, d1, d2);
      assert forall d1, j :: 0 <= j <= 4 ==> Lands(g, a, p, d1, j) == Lands(g, b, p, d1, j) by {
        forall d1, j | 0 <= j <= 4 ensures Lands(g, a, p, d1, j) == Lands(g, b, p, d1, j) {
          LandsAgree(g, a, b, p, d1, j);
        }
      }
      JumpsAgree(g, a, b, p, 4);
    }
  }

  lemma {:induction false} LandsAgree(g: Grid, a: seq<Option<PathElement>>, b: seq<Option<PathElement>>, p: Point, d1: Direction, j: nat)
    requires Sized(g) && |a| == |b| == g.width * g.height && j <= 4
    requires forall d2 :: Gain(g, a, p, d1, d2) == Gain(g, b, p, d1, d2)
    ensures Lands(g, a, p, d1, j) == Lands(g, b, p, d1, j)
  {
    if j > 0 {
      LandsAgree(g, a, b, p, d1, j - 1);
    }
  }

  lemma {:induction false} JumpsAgree(g: Grid, a: seq<Option<PathElement>>, b: seq<Option<PathElement>>, p: Point, i: nat)
    requires Sized(g) && |a| == |b| == g.width * g.height && i <= 4
    requires forall d1 :: Lands(g, a, p, d1, 4) == Lands(g, b, p, d1, 4)
    ensures Jumps(g, a, p, i) == Jumps(g, b, p, i)
  {
    if i > 0 {
      JumpsAgree(g, a, b, p, i - 1);
    }
  }

  /** Without a wall next to `before` in direction `d1` there is no jump. */
  lemma {:induction false} NoLands(g: Grid, graph: seq<Option<PathElement>>, before: Point, d1: Direction, j: nat)
    requires Sized(g) && |graph| == g.width * g.height && j <= 4
    requires var wall := Step(before, d1); !(InBounds(g.width, g.height, wall) && At(g, g.data, wall) == Wall)
    ensures Lands(g, graph, before, d1, j) == []
  {
    if j > 0 {
      NoLands(g, graph, before, d1, j - 1);
    }
  }

  /** The saving of one landing, in the terms the innermost loop computes
      it: slots of the flat grid rather than points. */
  lemma LandingGain(g: Grid, graph: seq<Option<PathElement>>, before: Point, d1: Direction, d2: Direction)
    requires Sized(g) && |graph| == g.width * g.height && InBounds(g.width, g.height, before)
    requires InBounds(g.width, g.height, Step(before, d1)) && At(g, g.data, Step(before, d1)) == Wall
    ensures var after := Step(Step(before, d1), d2);
      Gain(g, graph, before, d1, d2) ==
        if InBounds(g.width, g.height, after) && after != before && At(g, g.data, after) == Empty then
          var without := OrZero(Effective(At(g, graph, before)));
          var with := OrZero(Effective(At(g, graph, after))) + 2;
          if with < without then Some(without - with) else None
        else None
  {
  }

  /** The innermost loop of `count_shortcuts`: from `before`, through the
      wall in direction `d1`, every landing direction in turn. */
  method Landings(g: Grid, graph: seq<Option<PathElement>>, before: Point, d1: Direction, results: seq<nat>)
    returns (results': seq<nat>)
    requires Sized(g) && |graph| == g.width * g.height && InBounds(g.width, g.height, before)
    requires InBounds(g.width, g.height, Step(before, d1)) && At(g, g.data, Step(before, d1)) == Wall
    ensures results' == results + Lands(g, graph, before, d1, 4)
  {
    results' := results;
    var wall := Step(before, d1);
    var beforeIndex := CellIndex(g, before).value;
    for j := 0 to 4
      invariant results' == results + Lands(g, graph, before, d1, j)
    {
      var after := Step(wall, Around[j]);
      var index := CellIndex(g, after);
      ghost var gain := Gain(g, graph, before, d1, Around[j]);
      ghost var lands := Lands(g, graph, before, d1, j);
      LandingGain(g, graph, before, d1, Around[j]);
      assert graph[beforeIndex] == At(g, graph, before);
      assert index.Ok? ==> g.data[index.value] == At(g, g.data, after) && graph[index.value] == At(g, graph, after);
      assert Lands(g, graph, before, d1, j + 1) == lands + Listed(gain);
      if index.Ok? {
        if after != before && g.data[index.value] == Empty {
          var without := OrZero(Effective(graph[beforeIndex]));
          var with := OrZero(Effective(graph[index.value])) + 2;
          if with < without {
            assert gain == Some(without - with);
            results' := results' + [without - with];
            AppendAssociative(results, lands, [without - with]);
          } else {
            assert gain == None;
          }
        } else {
          assert gain == None;
        }
      } else {
        assert gain == None;
      }
    }
  }

  /** The loops over the walls around one cell and the cells behind them. */
  method CellShortcuts(g: Grid, graph: seq<Option<PathElement>>, before: Point, results: seq<nat>)
    returns (results': seq<nat>)
    requires Sized(g) && |graph| == g.width * g.height && InBounds(g.width, g.height, before)
    ensures results' == results + Jumps(g, graph, before, 4)
  {
    results' := results;
    for i := 0 to 4
      invariant results' == results + Jumps(g, graph, before, i)
    {
      var wall := Step(before, Around[i]);
      var index := CellIndex(g, wall);
      ghost var jumps, lands := Jumps(g, graph, before, i), Lands(g, graph, before, Around[i], 4);
      assert Jumps(g, graph, before, i + 1) == jumps + lands;
      assert index.Ok? ==> g.data[index.value] == At(g, g.data, wall);
      if index.Ok? && g.data[index.value] == Wall {
        results' := Landings(g, graph, before, Around[i], results');
        assert results' == results + (jumps + lands) by {
          AppendAssociative(results, jumps, lands);
        }
      } else {
        NoLands(g, graph, before, Around[i], 4);
        assert jumps + lands == jumps;
      }
    }
  }

  /** The scan of `count_shortcuts` over every cell, row by row. */
  method ScanShortcuts(g: Grid, graph: seq<Option<PathElement>>) returns (results: seq<nat>)
    requires Sized(g) && |graph| == g.width * g.height
    ensures results == Savings(g, graph, g.height)
  {
    results := [];
    for y := 0 to g.height
      invariant results == Savings(g, graph, y)
    {
      for x := 0 to g.width
        invariant results == Savings(g, graph, y) + RowGains(g, graph, y, x)
      {
        results := CellShortcuts(g, graph, Point(x, y), results);
        AppendAssociative(Savings(g, graph, y), RowGains(g, graph, y, x), Jumps(g, graph, Point(x, y), 4));
      }
    }
  }

  /** `count_shortcuts`: the distance field, then every shortcut that saves
      time, in scan order. It fails exactly when an empty cell cannot be
      reached from the goal; otherwise it lists the savings of the shortcuts
      over the exact distances. */
  method CountShortcuts(g: Grid) returns (r: Result<seq<nat>>, ghost graph: seq<Option<PathElement>>)
    requires Valid(g)
    ensures r.Ok? <==> AllReachable(g)
    ensures r.Ok? ==> Distances(g, graph) && r.value == Savings(g, graph, g.height)
    ensures r.Err? ==>
      r.msg == NoDistance
  {
    var search := Search(g);
    if search.Err? {
      return Err(search.msg), [];
    }
    var field := search.value;
    var results := ScanShortcuts(g, field);
    return Ok(results), field;
  }

  /** How many savings are at least `threshold` (the `filter` and `count`
      of `do_it`). */
  function AtLeast(s: seq<nat>, threshold: nat): (n: nat)
    ensures n <= |s|
  {
    if s == [] then 0
    else AtLeast(s[..|s| - 1], threshold) + if s[|s| - 1] >= threshold then 1 else 0
  }

  /** A threshold of one counts every shortcut the scan records. */
  lemma {:induction false} AtLeastOne(s: seq<nat>)
    requires forall i :: 0 <= i < |s| ==> s[i] >= 1
    ensures AtLeast(s, 1) == |s|
  {
    if s != [] {
      AtLeastOne(s[..|s| - 1]);
    }
  }

  /** A higher threshold counts no more shortcuts. */
  lemma {:induction false} AtLeastMonotone(s: seq<nat>, t: nat, u: nat)
    requires t <= u
    ensures AtLeast(s, u) <= AtLeast(s, t)
  {
    if s != [] {
      AtLeastMonotone(s[..|s| - 1], t, u);
    }
  }

  /** The `filter` and `count` of `do_it`. */
  method CountAtLeast(saved: seq<nat>, threshold: nat) returns (count: nat)
    ensures count == AtLeast(saved, threshold)
  {
    count := 0;
    for i := 0 to |saved|
      invariant count == AtLeast(saved[..i], threshold)
    {
      assert saved[..i + 1][..i] == saved[..i];
      if saved[i] >= threshold {
        count := count + 1;
      }
    }
    assert saved[..|saved|] == saved;
  }

  /** Every grid `Grid::new` builds is valid. */
  lemma ReadGridValid(lines: seq<string>)
    requires ReadGrid(lines).Ok?
    ensures Valid(ReadGrid(lines).value)
  {
    ReadGridOutcome(lines);
    ReadGridCells(lines);
  }

  /** `do_it` after reading the file: drop blank lines, build the grid, list
      the shortcuts and count those saving at least `threshold`. It answers
      exactly when the grid is well formed and every empty cell can reach
      the end, and the answer counts the savings over the exact distances. */
  method Solve(lines: seq<string>, threshold: nat) returns (r: Result<nat>, ghost graph: seq<Option<PathElement>>)
    ensures var g := ReadGrid(NonBlankLines(lines));
      r.Ok? <==> g.Ok? && Valid(g.value) && AllReachable(g.value)
    ensures var g := ReadGrid(NonBlankLines(lines));
      r.Ok? ==> g.Ok? && Valid(g.value) && Distances(g.value, graph) &&
                r.value == AtLeast(Savings(g.value, graph, g.value.height), threshold)
  {
    var rows := NonBlankLines(lines);
    var grid := NewGrid(rows);
    if grid.Err? {
      return Err(grid.msg), [];
    }
    ReadGridValid(rows);
    var saved;
    saved, graph := CountShortcuts(grid.value);
    if saved.Err? {
      return Err(saved.msg), graph;
    }
    var count := CountAtLeast(saved.value, threshold);
    return Ok(count), graph;
  }
}
