/** Day 18, part two: bytes fall one by one onto a square memory space; the
    answer is the first byte after which the exit (bottom-right corner) can
    no longer be reached from the top-left corner. The solver bisects over
    prefixes of the byte list and runs a unit-cost shortest-path search on
    the grid each prefix leaves. */
module Day18b {
  import opened Common
  import opened Text
  import opened Grid2D
  import opened MinQueue

  /** The memory space: `data` holds the cells row by row, true where a byte
      has fallen. */
  datatype Grid = Grid(width: nat, height: nat, data: seq<bool>)

  predicate Sized(g: Grid)
  {
    |g.data| == g.width * g.height
  }

  // ---------------------------------------------------------------- parsing

  /** One input line, `x,y` in decimal (the pattern `^([0-9]+),([0-9]+)$`),
      both parsed as `usize`. */
  function ParseByte(line: string): (r: Result<(nat, nat)>)
    ensures r.Ok? ==> r.value.0 < U64_LIMIT && r.value.1 < U64_LIMIT
  {
    var parts := SplitPair(line, ',');
    if parts.None? || parts.value.0 == [] || parts.value.1 == []
       || !AllDigits(parts.value.0) || !AllDigits(parts.value.1) then
      Err("regex failed: " + line)
    else
      var x :- ParseUnsigned(parts.value.0, U64_LIMIT);
      var y :- ParseUnsigned(parts.value.1, U64_LIMIT);
      Ok((x, y))
  }

  /** A byte's coordinates written the way the input writes them read back
      as the same byte. */
  lemma ParseByteLine(x: nat, y: nat)
    requires x < U64_LIMIT && y < U64_LIMIT
    ensures ParseByte(Decimal(x) + [','] + Decimal(y)) == Ok((x, y))
  {
    var a, b := Decimal(x), Decimal(y);
    assert ',' !in a && ',' !in b;
    SplitPairShape(a + [','] + b, ',', a, b);
    ParseDecimal(x, U64_LIMIT);
    ParseDecimal(y, U64_LIMIT);
  }

  /** The slot `Grid::new` writes for the byte (x, y): `y * width + x`. */
  function Target(width: nat, b: (nat, nat)): nat
  {
    b.1 * width + b.0
  }

  /** Whether `line` is a byte whose slot lies within a grid of `size` cells. */
  predicate Lands(width: nat, size: nat, line: string)
  {
    ParseByte(line).Ok? && Target(width, ParseByte(line).value) < size
  }

  /** Some line of `lines` is a byte aimed at slot `i`. */
  ghost predicate Hit(width: nat, lines: seq<string>, i: nat)
  {
    exists k :: 0 <= k < |lines| && ParseByte(lines[k]).Ok? && Target(width, ParseByte(lines[k]).value) == i
  }

  /** The loop of `Grid::new` from `data` on: every byte sets its slot, in
      order. A line that does not parse is an error, and so is a slot past
      the end (the index panic of the source). */
  function Fallen(width: nat, data: seq<bool>, lines: seq<string>): (r: Result<seq<bool>>)
    ensures r.Ok? ==> |r.value| == |data|
    decreases |lines|
  {
    if lines == [] then Ok(data)
    else
      var b :- ParseByte(lines[0]);
      if Target(width, b) >= |data| then Err("index out of bounds")
      else Fallen(width, data[Target(width, b) := true], lines[1..])
  }

  /** The bytes land without error exactly when every line parses and aims
      inside the grid. */
  lemma {:induction false} FallenOk(width: nat, data: seq<bool>, lines: seq<string>)
    ensures Fallen(width, data, lines).Ok? <==> forall k :: 0 <= k < |lines| ==> Lands(width, |data|, lines[k])
    decreases |lines|
  {
    if lines != [] {
      var b := ParseByte(lines[0]);
      if b.Ok? && Target(width, b.value) < |data| {
        FallenOk(width, data[Target(width, b.value) := true], lines[1..]);
        assert forall k :: 1 <= k < |lines| ==> lines[k] == lines[1..][k - 1];
      }
    }
  }

  /** After the bytes land, a slot is set exactly when it was set before or
      some byte aims at it. */
  lemma {:induction false} FallenCells(width: nat, data: seq<bool>, lines: seq<string>, i: nat)
    requires Fallen(width, data, lines).Ok? && i < |data|
    ensures Fallen(width, data, lines).value[i] <==> data[i] || Hit(width, lines, i)
    decreases |lines|
  {
    if lines != [] {
      var b := ParseByte(lines[0]).value;
      var data' := data[Target(width, b) := true];
      FallenCells(width, data', lines[1..], i);
      if Hit(width, lines[1..], i) {
        var k :| 0 <= k < |lines[1..]| && ParseByte(lines[1..][k]).Ok?
                 && Target(width, ParseByte(lines[1..][k]).value) == i;
        assert lines[k + 1] == lines[1..][k];
      }
      if Hit(width, lines, i) && Target(width, b) != i {
        var k :| 0 <= k < |lines| && ParseByte(lines[k]).Ok? && Target(width, ParseByte(lines[k]).value) == i;
        assert k > 0 && lines[1..][k - 1] == lines[k];
      }
    }
  }

  function Clear(n: nat): (r: seq<bool>)
    ensures |r| == n && forall i :: 0 <= i < n ==> !r[i]
  {
    seq(n, _ => false)
  }

  /** What `Grid::new` builds: a clear `width` x `height` grid with every
      listed byte fallen. */
  function Corrupt(width: nat, height: nat, lines: seq<string>): (r: Result<Grid>)
    ensures r.Ok? ==> Sized(r.value) && r.value.width == width && r.value.height == height
  {
    var data :- Fallen(width, Clear(width * height), lines);
    Ok(Grid(width, height, data))
  }

  /** `Grid::new` succeeds exactly when every byte parses and lands inside the
      grid; then a cell is corrupted exactly when some byte aims at its slot. */
  lemma CorruptCells(width: nat, height: nat, lines: seq<string>)
    ensures Corrupt(width, height, lines).Ok? <==>
      forall k :: 0 <= k < |lines| ==> Lands(width, width * height, lines[k])
    ensures Corrupt(width, height, lines).Ok? ==>
      forall i :: 0 <= i < width * height ==> (Corrupt(width, height, lines).value.data[i] <==> Hit(width, lines, i))
  {
    FallenOk(width, Clear(width * height), lines);
    if Corrupt(width, height, lines).Ok? {
      forall i | 0 <= i < width * height
        ensures Corrupt(width, height, lines).value.data[i] <==> Hit(width, lines, i)
      {
        FallenCells(width, Clear(width * height), lines, i);
      }
    }
  }

  /** `Grid::new`: start from a clear grid and set the slot of each byte. */
  method NewGrid(width: nat, height: nat, lines: seq<string>) returns (r: Result<Grid>)
    ensures r == Corrupt(width, height, lines)
  {
    var data := Clear(width * height);
    for k := 0 to |lines|
      invariant |data| == width * height
      invariant Fallen(width, data, lines[k..]) == Fallen(width, Clear(width * height), lines)
    {
      assert lines[k..][1..] == lines[k + 1..];
      var b := ParseByte(lines[k]);
      if b.Err? {
        return Err(b.msg);
      }
      var slot := b.value.1 * width + b.value.0;
      if slot >= |data| {
        return Err("index out of bounds");
      }
      data := data[slot := true];
    }
    assert lines[|lines|..] == [];
    return Ok(Grid(width, height, data));
  }

  // ---------------------------------------------------------------- cells

  /** `index`: the row-major slot of a point on the grid, an error off it. */
  function CellIndex(g: Grid, p: Point): (r: Result<nat>)
    ensures r.Ok? <==> InBounds(g.width, g.height, p)
    ensures r.Ok? ==> r.value < g.width * g.height
  {
    if InBounds(g.width, g.height, p) then
      IndexBounds(g.width, g.height, p);
      Ok(Index(g.width, p))
    else
      Err("out of bounds")
  }

  /** Different points on the grid have different slots. */
  lemma CellIndexInjective(g: Grid, p: Point, q: Point)
    requires CellIndex(g, p).Ok? && CellIndex(g, p) == CellIndex(g, q)
    ensures p == q
  {
    IndexInjective(g.width, g.height, p, q);
  }

  /** The entry for point `p` of a per-cell vector. */
  function At<T>(g: Grid, s: seq<T>, p: Point): T
    requires |s| == g.width * g.height && InBounds(g.width, g.height, p)
  {
    IndexBounds(g.width, g.height, p);
    s[Index(g.width, p)]
  }

  lemma AtPut<T>(g: Grid, s: seq<T>, p: Point, v: T)
    requires |s| == g.width * g.height && InBounds(g.width, g.height, p)
    ensures forall q :: InBounds(g.width, g.height, q) ==>
      At(g, Put(g.width, g.height, s, p, v), q) == if q == p then v else At(g, s, q)
  {
    forall q | InBounds(g.width, g.height, q)
      ensures At(g, Put(g.width, g.height, s, p, v), q) == if q == p then v else At(g, s, q)
    {
      IndexBounds(g.width, g.height, q);
      if q != p && Index(g.width, q) == Index(g.width, p) {
        IndexInjective(g.width, g.height, p, q);
      }
    }
  }

  /** A cell on the grid that no byte has corrupted. */
  predicate Free(g: Grid, p: Point)
    requires Sized(g)
  {
    InBounds(g.width, g.height, p) && !At(g, g.data, p)
  }

  predicate Adjacent(p: Point, q: Point)
  {
    q == Step(p, Left) || q == Step(p, Right) || q == Step(p, Up) || q == Step(p, Down)
  }

  /** `path` walks from `start` to `end` through free cells, one step at a time. */
  ghost predicate Route(g: Grid, start: Point, path: seq<Point>, end: Point)
    requires Sized(g)
  {
    |path| > 0 && path[0] == start && path[|path| - 1] == end &&
    (forall i :: 0 <= i < |path| ==> Free(g, path[i])) &&
    (forall i :: 0 <= i < |path| - 1 ==> Adjacent(path[i], path[i + 1]))
  }

  /** `end` can be reached from `start` in `d` steps. */
  ghost predicate Reaches(g: Grid, start: Point, end: Point, d: nat)
    requires Sized(g)
  {
    exists path :: Route(g, start, path, end) && |path| == d + 1
  }

  ghost predicate Reachable(g: Grid, start: Point, end: Point)
    requires Sized(g)
  {
    exists path :: Route(g, start, path, end)
  }

  lemma RouteExtend(g: Grid, start: Point, path: seq<Point>, p: Point, q: Point)
    requires Sized(g) && Route(g, start, path, p) && Free(g, q) && Adjacent(p, q)
    ensures Route(g, start, path + [q], q)
  {
  }

  // ---------------------------------------------------------------- search

  datatype PathElement = Start | Element(distance: nat)

  /** `effective_distance`: zero at the start, the recorded distance at a
      reached cell, none at a cell not reached yet. */
  function Effective(e: Option<PathElement>): (r: Option<nat>)
    ensures r.None? <==> e.None?
    ensures e == Some(Start) ==> r == Some(0)
    ensures e.Some? && e.value.Element? ==> r == Some(e.value.distance)
  {
    match e
    case None => None
    case Some(Start) => Some(0)
    case Some(Element(d)) => Some(d)
  }

  /** The effective distances of the queued cells. */
  function Keys(g: Grid, graph: seq<Option<PathElement>>, queue: seq<Point>): (r: seq<Option<nat>>)
    requires |graph| == g.width * g.height
    requires forall i :: 0 <= i < |queue| ==> InBounds(g.width, g.height, queue[i])
    ensures |r| == |queue| && forall i :: 0 <= i < |queue| ==> r[i] == Effective(At(g, graph, queue[i]))
  {
    seq(|queue|, i requires 0 <= i < |queue| => Effective(At(g, graph, queue[i])))
  }

  /** The neighbours in the order the search relaxes them. */
  const Around: seq<Direction> := [Left, Right, Up, Down]

  /** The queue holds cells of the grid, and every cell marked as queued is
      a free cell in it. */
  ghost predicate Queued(g: Grid, queue: seq<Point>, queued: seq<bool>)
    requires Sized(g)
  {
    |queued| == g.width * g.height &&
    (forall i :: 0 <= i < |queue| ==> InBounds(g.width, g.height, queue[i])) &&
    (forall p {:trigger At(g, queued, p)} :: InBounds(g.width, g.height, p) && At(g, queued, p) ==> Free(g, p) && p in queue)
  }

  /** Every cell with a distance has a route of that many steps from the
      start, recorded in `walks`. */
  ghost predicate Tracked(g: Grid, start: Point, graph: seq<Option<PathElement>>, walks: map<Point, seq<Point>>)
    requires Sized(g)
  {
    |graph| == g.width * g.height &&
    forall p {:trigger At(g, graph, p)} :: InBounds(g.width, g.height, p) && At(g, graph, p).Some? ==>
      p in walks && Route(g, start, walks[p], p) && |walks[p]| == Effective(At(g, graph, p)).value + 1
  }

  /** A cell with a distance whose free neighbours all have one too. */
  ghost predicate Spread(g: Grid, graph: seq<Option<PathElement>>, p: Point)
    requires Sized(g) && |graph| == g.width * g.height && InBounds(g.width, g.height, p)
  {
    At(g, graph, p).Some? &&
    forall d :: Free(g, Step(p, d)) ==> At(g, graph, Step(p, d)).Some?
  }

  /** Every free cell taken off the queue, except perhaps `skip`, has spread
      its distance. */
  ghost predicate SettledBut(g: Grid, queued: seq<bool>, graph: seq<Option<PathElement>>, skip: Option<Point>)
    requires Sized(g)
  {
    |queued| == |graph| == g.width * g.height &&
    forall p {:trigger At(g, queued, p)} :: Free(g, p) && !At(g, queued, p) && Some(p) != skip ==> Spread(g, graph, p)
  }

  /** While the start waits in the queue, it is the only cell with a distance. */
  ghost predicate StartFirst(g: Grid, start: Point, queued: seq<bool>, graph: seq<Option<PathElement>>)
    requires Sized(g) && |queued| == |graph| == g.width * g.height
  {
    (Free(g, start) ==> At(g, graph, start).Some?) &&
    (InBounds(g.width, g.height, start) && At(g, queued, start) ==>
      forall p {:trigger At(g, graph, p)} :: InBounds(g.width, g.height, p) && p != start ==> At(g, graph, p).None?)
  }

  /** The goal gets a distance exactly when `goal_node` is set, and that
      distance is a step count. */
  ghost predicate GoalKept(g: Grid, start: Point, goal: Point, graph: seq<Option<PathElement>>, found: Option<Point>)
    requires Sized(g) && |graph| == g.width * g.height
  {
    (found.None? && goal != start && InBounds(g.width, g.height, goal) ==> At(g, graph, goal).None?) &&
    (found.Some? ==> found.value == goal && goal != start && InBounds(g.width, g.height, goal) &&
                     At(g, graph, goal).Some? && At(g, graph, goal).value.Element?)
  }

  /** The invariant of the main loop of `shorted_path`. */
  ghost predicate Searching(g: Grid, start: Point, goal: Point, queue: seq<Point>, queued: seq<bool>,
                            graph: seq<Option<PathElement>>, walks: map<Point, seq<Point>>, found: Option<Point>)
  {
    Sized(g) && |queued| == |graph| == g.width * g.height &&
    Queued(g, queue, queued) && Tracked(g, start, graph, walks) && SettledBut(g, queued, graph, None) &&
    StartFirst(g, start, queued, graph) && GoalKept(g, start, goal, graph, found)
  }

  /** The column-by-column set-up scan has passed cell `p` once it reaches (x, y). */
  predicate Seen(p: Point, x: int, y: int)
  {
    p.x < x || (p.x == x && p.y < y)
  }

  /** The set-up state once the scan reaches (x, y): the free cells seen so
      far are queued, and the start has distance zero once seen. */
  ghost predicate Enqueued(g: Grid, start: Point, queue: seq<Point>, queued: seq<bool>,
                           graph: seq<Option<PathElement>>, x: int, y: int)
  {
    Sized(g) && |queued| == |graph| == g.width * g.height &&
    (forall i :: 0 <= i < |queue| ==> InBounds(g.width, g.height, queue[i])) &&
    (forall p {:trigger At(g, queued, p)} :: InBounds(g.width, g.height, p) ==> (At(g, queued, p) <==> Free(g, p) && Seen(p, x, y))) &&
    (forall p {:trigger At(g, queued, p)} :: InBounds(g.width, g.height, p) && At(g, queued, p) ==> p in queue) &&
    (forall p {:trigger At(g, graph, p)} :: InBounds(g.width, g.height, p) ==>
      At(g, graph, p) == if p == start && Free(g, p) && Seen(p, x, y) then Some(Start) else None)
  }

  lemma NextColumn(g: Grid, start: Point, queue: seq<Point>, queued: seq<bool>,
                   graph: seq<Option<PathElement>>, x: int)
    requires Enqueued(g, start, queue, queued, graph, x, g.height)
    ensures Enqueued(g, start, queue, queued, graph, x + 1, 0)
  {
    assert forall p :: InBounds(g.width, g.height, p) ==> (Seen(p, x, g.height) <==> Seen(p, x + 1, 0));
  }

  function Unreached(n: nat): (r: seq<Option<PathElement>>)
    ensures |r| == n && forall i :: 0 <= i < n ==> r[i].None?
  {
    seq(n, _ => None)
  }

  lemma SetUpStart(g: Grid, start: Point)
    requires Sized(g)
    ensures Enqueued(g, start, [], Clear(g.width * g.height), Unreached(g.width * g.height), 0, 0)
  {
    var queued, graph := Clear(g.width * g.height), Unreached(g.width * g.height);
    forall p | InBounds(g.width, g.height, p)
      ensures !At(g, queued, p) && At(g, graph, p).None?
    {
      IndexBounds(g.width, g.height, p);
    }
  }

  /** One cell of the set-up scan. */
  lemma EnqueueCell(g: Grid, start: Point, queue: seq<Point>, queued: seq<bool>,
                    graph: seq<Option<PathElement>>, p: Point)
    requires Enqueued(g, start, queue, queued, graph, p.x, p.y) && InBounds(g.width, g.height, p)
    ensures Free(g, p) && p == start ==>
      Enqueued(g, start, queue + [p], Put(g.width, g.height, queued, p, true),
               Put(g.width, g.height, graph, p, Some(Start)), p.x, p.y + 1)
    ensures Free(g, p) && p != start ==>
      Enqueued(g, start, queue + [p], Put(g.width, g.height, queued, p, true), graph, p.x, p.y + 1)
    ensures !Free(g, p) ==> Enqueued(g, start, queue, queued, graph, p.x, p.y + 1)
  {
    AtPut(g, queued, p, true);
    AtPut(g, graph, p, Some(Start));
  }

  /** The set-up loops of `shorted_path`: column by column, each free cell
      joins the queue, and the start, when free, gets distance zero. */
  method Enqueue(g: Grid, start: Point)
    returns (queue: seq<Point>, queued: seq<bool>, graph: seq<Option<PathElement>>)
    requires Sized(g)
    ensures Enqueued(g, start, queue, queued, graph, g.width, 0)
  {
    queue := [];
    queued := Clear(g.width * g.height);
    graph := Unreached(g.width * g.height);
    SetUpStart(g, start);
    for x := 0 to g.width
      invariant Enqueued(g, start, queue, queued, graph, x, 0)
    {
      for y := 0 to g.height
        invariant Enqueued(g, start, queue, queued, graph, x, y)
      {
        var p := Point(x, y);
        IndexBounds(g.width, g.height, p);
        EnqueueCell(g, start, queue, queued, graph, p);
        var i := Index(g.width, p);
        if !g.data[i] {
          queue := queue + [p];
          queued := Put(g.width, g.height, queued, p, true);
          if p == start {
            graph := Put(g.width, g.height, graph, p, Some(Start));
          }
        }
      }
      NextColumn(g, start, queue, queued, graph, x);
    }
  }

  /** After the set-up every free cell is queued, only the start has a
      distance, and nothing has been taken off the queue yet. */
  lemma SetUpDone(g: Grid, start: Point, goal: Point, queue: seq<Point>, queued: seq<bool>,
                           graph: seq<Option<PathElement>>)
    requires Enqueued(g, start, queue, queued, graph, g.width, 0)
    ensures Searching(g, start, goal, queue, queued, graph, map[start := [start]], None)
  {
  }

  /** Taking `queue[i]` off the queue keeps the queue bookkeeping. */
  lemma Popped(g: Grid, queue: seq<Point>, queued: seq<bool>, i: nat)
    requires Sized(g) && Queued(g, queue, queued) && i < |queue|
    ensures Queued(g, SwapRemove(queue, i), Put(g.width, g.height, queued, queue[i], false))
  {
    var next := queue[i];
    var queue', queued' := SwapRemove(queue, i), Put(g.width, g.height, queued, next, false);
    AtPut(g, queued, next, false);
    forall j | 0 <= j < |queue'|
      ensures InBounds(g.width, g.height, queue'[j])
    {
      SwapRemoveKeeps(queue, i, queue'[j]);
    }
    forall p | InBounds(g.width, g.height, p) && At(g, queued', p)
      ensures Free(g, p) && p in queue'
    {
      assert p != next && At(g, queued, p);
      SwapRemoveKeeps(queue, i, p);
    }
  }

  /** Taking a cell with a distance off the queue leaves it the only cell yet
      to spread, and leaves the start off the queue. */
  lemma PoppedSettled(g: Grid, start: Point, queued: seq<bool>, graph: seq<Option<PathElement>>, next: Point)
    requires Sized(g) && |queued| == |graph| == g.width * g.height && InBounds(g.width, g.height, next)
    requires SettledBut(g, queued, graph, None) && StartFirst(g, start, queued, graph)
    requires Effective(At(g, graph, next)).Some?
    ensures SettledBut(g, Put(g.width, g.height, queued, next, false), graph, Some(next))
    ensures InBounds(g.width, g.height, start) ==> !At(g, Put(g.width, g.height, queued, next, false), start)
  {
    AtPut(g, queued, next, false);
  }

  /** Following a route to the goal while the goal still waits in the queue:
      the first queued cell on it has a distance, so some queued cell does. */
  lemma {:induction false} Frontier(g: Grid, start: Point, goal: Point, queue: seq<Point>, queued: seq<bool>,
                                    graph: seq<Option<PathElement>>, path: seq<Point>, j: nat)
    requires Sized(g) && Queued(g, queue, queued) && SettledBut(g, queued, graph, None)
    requires Free(g, start) ==> At(g, graph, start).Some?
    requires Route(g, start, path, goal) && At(g, queued, goal) && j < |path|
    requires j > 0 ==> !At(g, queued, path[j - 1])
    ensures exists k :: 0 <= k < |queue| && Effective(At(g, graph, queue[k])).Some?
    decreases |path| - j
  {
    var p := path[j];
    if At(g, queued, p) {
      if j > 0 {
        var q := path[j - 1];
        assert Adjacent(q, p);
        assert Spread(g, graph, q);
      }
      assert At(g, graph, p).Some?;
      var k :| 0 <= k < |queue| && queue[k] == p;
      assert Effective(At(g, graph, queue[k])).Some?;
    } else {
      Frontier(g, start, goal, queue, queued, graph, path, j + 1);
    }
  }

  /** While the goal has no distance it waits in the queue. */
  lemma GoalWaits(g: Grid, start: Point, goal: Point, queue: seq<Point>, queued: seq<bool>,
                  graph: seq<Option<PathElement>>, walks: map<Point, seq<Point>>)
    requires Searching(g, start, goal, queue, queued, graph, walks, None) && goal != start && Free(g, goal)
    ensures At(g, queued, goal) && goal in queue
  {
    assert InBounds(g.width, g.height, goal) && At(g, graph, goal).None?;
    Waiting(g, queued, graph, goal);
  }

  /** A free cell without a distance has not been taken off the queue. */
  lemma Waiting(g: Grid, queued: seq<bool>, graph: seq<Option<PathElement>>, p: Point)
    requires Sized(g) && SettledBut(g, queued, graph, None) && Free(g, p) && At(g, graph, p).None?
    ensures At(g, queued, p)
  {
  }

  /** When no queued cell has a distance, the goal cannot be reached. */
  lemma NothingReached(g: Grid, start: Point, goal: Point, queue: seq<Point>, queued: seq<bool>,
                       graph: seq<Option<PathElement>>, walks: map<Point, seq<Point>>)
    requires Searching(g, start, goal, queue, queued, graph, walks, None)
    requires forall k :: 0 <= k < |queue| ==> Effective(At(g, graph, queue[k])).None?
    ensures !(goal != start && Reachable(g, start, goal))
  {
    if goal != start && Reachable(g, start, goal) {
      var path :| Route(g, start, path, goal);
      GoalWaits(g, start, goal, queue, queued, graph, walks);
      Frontier(g, start, goal, queue, queued, graph, path, 0);
    }
  }

  /** The state of the neighbour loop after `k` of the four neighbours of
      `next`, which had distance `current`: the routes and the goal's
      bookkeeping are kept, distances only appear, and the neighbours seen
      so far that are free have a distance. */
  ghost predicate Relaxing(g: Grid, start: Point, goal: Point, next: Point, current: nat, queued: seq<bool>,
                           before: seq<Option<PathElement>>, graph: seq<Option<PathElement>>,
                           walks: map<Point, seq<Point>>, found: Option<Point>, k: nat)
  {
    Sized(g) && |queued| == |before| == |graph| == g.width * g.height && k <= 4 &&
    InBounds(g.width, g.height, next) && !At(g, queued, next) &&
    (forall p {:trigger At(g, queued, p)} :: InBounds(g.width, g.height, p) && At(g, queued, p) ==> Free(g, p)) &&
    (InBounds(g.width, g.height, start) ==> !At(g, queued, start)) &&
    Tracked(g, start, graph, walks) && SettledBut(g, queued, graph, Some(next)) &&
    (forall p {:trigger At(g, before, p)} :: InBounds(g.width, g.height, p) && At(g, before, p).Some? ==> At(g, graph, p).Some?) &&
    Effective(At(g, graph, next)) == Some(current) &&
    (forall j :: 0 <= j < k && Free(g, Step(next, Around[j])) ==> At(g, graph, Step(next, Around[j])).Some?) &&
    GoalKept(g, start, goal, graph, found)
  }

  /** A neighbour that is off the grid, no longer queued, or already as close
      is left alone. */
  lemma RelaxSkip(g: Grid, start: Point, goal: Point, next: Point, current: nat, queued: seq<bool>,
                  before: seq<Option<PathElement>>, graph: seq<Option<PathElement>>,
                  walks: map<Point, seq<Point>>, found: Option<Point>, k: nat)
    requires Relaxing(g, start, goal, next, current, queued, before, graph, walks, found, k) && k < 4
    requires var n := Step(next, Around[k]);
      !InBounds(g.width, g.height, n) || !At(g, queued, n) || Effective(At(g, graph, n)).Some?
    ensures Relaxing(g, start, goal, next, current, queued, before, graph, walks, found, k + 1)
  {
    var n := Step(next, Around[k]);
    if Free(g, n) && !At(g, queued, n) {
      assert n != next;
      assert Spread(g, graph, n);
    }
  }

  /** Giving the queued neighbour `Around[k]` of `next` the distance
      `current + 1` keeps the routes, the spread cells and the goal's
      bookkeeping. */
  lemma RelaxOne(g: Grid, start: Point, goal: Point, next: Point, current: nat, queued: seq<bool>,
                 before: seq<Option<PathElement>>, graph: seq<Option<PathElement>>,
                 walks: map<Point, seq<Point>>, found: Option<Point>, k: nat)
    requires Relaxing(g, start, goal, next, current, queued, before, graph, walks, found, k) && k < 4
    requires InBounds(g.width, g.height, Step(next, Around[k])) && At(g, queued, Step(next, Around[k]))
    ensures var n := Step(next, Around[k]);
      Relaxing(g, start, goal, next, current, queued, before,
               Put(g.width, g.height, graph, n, Some(Element(current + 1))),
               walks[n := walks[next] + [n]], if n == goal then Some(n) else found, k + 1)
  {
    var n := Step(next, Around[k]);
    AtPut(g, graph, n, Some(Element(current + 1)));
    RouteExtend(g, start, walks[next], next, n);
  }

  /** The loop over the four neighbours of `next`: each neighbour still in
      the queue whose distance is unknown or larger than one more than
      `next`'s takes that distance, and `goal_node` is set when it is the
      goal. */
  method Relax(g: Grid, ghost start: Point, goal: Point, next: Point, current: nat, queued: seq<bool>,
               graph: seq<Option<PathElement>>, ghost walks: map<Point, seq<Point>>, found: Option<Point>)
    returns (graph': seq<Option<PathElement>>, ghost walks': map<Point, seq<Point>>, found': Option<Point>)
    requires Relaxing(g, start, goal, next, current, queued, graph, graph, walks, found, 0)
    ensures |graph'| == |graph|
    ensures Tracked(g, start, graph', walks') && SettledBut(g, queued, graph', None)
    ensures Free(g, start) ==> At(g, graph', start).Some?
    ensures GoalKept(g, start, goal, graph', found')
  {
    graph', walks', found' := graph, walks, found;
    for k := 0 to 4
      invariant Relaxing(g, start, goal, next, current, queued, graph, graph', walks', found', k)
    {
      var neighbor := Step(next, Around[k]);
      var index := CellIndex(g, neighbor);
      if index.Ok? && queued[index.value] {
        var existing := Effective(graph'[index.value]);
        var proposed := current + 1;
        var replace := if existing.Some? then proposed < existing.value else true;
        if replace {
          RelaxOne(g, start, goal, next, current, queued, graph, graph', walks', found', k);
          graph' := Put(g.width, g.height, graph', neighbor, Some(Element(proposed)));
          walks' := walks'[neighbor := walks'[next] + [neighbor]];
          if neighbor == goal {
            found' := Some(neighbor);
          }
        } else {
          RelaxSkip(g, start, goal, next, current, queued, graph, graph', walks', found', k);
        }
      } else {
        RelaxSkip(g, start, goal, next, current, queued, graph, graph', walks', found', k);
      }
    }
    RelaxDone(g, start, goal, next, current, queued, graph, graph', walks', found');
  }

  /** After all four neighbours, `next` has spread its distance too. */
  lemma RelaxDone(g: Grid, start: Point, goal: Point, next: Point, current: nat, queued: seq<bool>,
                  before: seq<Option<PathElement>>, graph: seq<Option<PathElement>>,
                  walks: map<Point, seq<Point>>, found: Option<Point>)
    requires Relaxing(g, start, goal, next, current, queued, before, graph, walks, found, 4)
    requires Free(g, start) ==> At(g, before, start).Some?
    ensures SettledBut(g, queued, graph, None) && (Free(g, start) ==> At(g, graph, start).Some?)
  {
    forall d: Direction ensures Free(g, Step(next, d)) ==> At(g, graph, Step(next, d)).Some? {
      assert d == Around[0] || d == Around[1] || d == Around[2] || d == Around[3];
    }
    assert Spread(g, graph, next);
  }

  /** One round of the main loop once `queue[i]` is known to have a distance:
      take it off the queue and relax its neighbours. */
  method Visit(g: Grid, ghost start: Point, goal: Point, queue: seq<Point>, queued: seq<bool>,
               graph: seq<Option<PathElement>>, ghost walks: map<Point, seq<Point>>, found: Option<Point>, i: nat)
    returns (queue': seq<Point>, queued': seq<bool>, graph': seq<Option<PathElement>>,
             ghost walks': map<Point, seq<Point>>, found': Option<Point>)
    requires Searching(g, start, goal, queue, queued, graph, walks, found) && i < |queue|
    requires Effective(At(g, graph, queue[i])).Some?
    ensures Searching(g, start, goal, queue', queued', graph', walks', found') && |queue'| < |queue|
  {
    var next := queue[i];
    Popped(g, queue, queued, i);
    PoppedSettled(g, start, queued, graph, next);
    queue' := SwapRemove(queue, i);
    queued' := Put(g.width, g.height, queued, next, false);
    AtPut(g, queued, next, false);
    var current := Effective(At(g, graph, next)).value;
    assert Relaxing(g, start, goal, next, current, queued', graph, graph, walks, found, 0);
    graph', walks', found' := Relax(g, start, goal, next, current, queued', graph, walks, found);
  }

  /** Once `goal_node` is set, the goal's distance is the length of a route. */
  lemma FoundGoal(g: Grid, start: Point, goal: Point, queue: seq<Point>, queued: seq<bool>,
                  graph: seq<Option<PathElement>>, walks: map<Point, seq<Point>>, found: Option<Point>)
    requires Searching(g, start, goal, queue, queued, graph, walks, found) && found.Some?
    ensures goal != start && InBounds(g.width, g.height, goal) && At(g, graph, goal).Some?
    ensures At(g, graph, goal).value.Element?
    ensures Reaches(g, start, goal, At(g, graph, goal).value.distance)
  {
    var path := walks[goal];
    assert Route(g, start, path, goal) && |path| == At(g, graph, goal).value.distance + 1;
  }

  /** `shorted_path`: a shortest-path search with unit steps that stops as
      soon as the goal gets a distance. It answers with a distance exactly
      when the goal is another cell reachable from the start, and that
      distance is the length of a route. */
  method ShortestPath(g: Grid, start: Point, goal: Point) returns (r: Result<nat>)
    requires Sized(g)
    ensures r.Ok? ==> goal != start && Reaches(g, start, goal, r.value)
    ensures goal != start && Reachable(g, start, goal) ==> r.Ok?
  {
    var queue, queued, graph := Enqueue(g, start);
    ghost var walks := map[start := [start]];
    SetUpDone(g, start, goal, queue, queued, graph);
    var found: Option<Point> := None;
    while queue != [] && found.None?
      invariant Searching(g, start, goal, queue, queued, graph, walks, found)
      decreases |queue|
    {
      var keys := Keys(g, graph, queue);
      var i := Pick(keys);
      var next := queue[i];
      if keys[i].None? {
        PickedNothing(keys, i);
        NothingReached(g, start, goal, queue, queued, graph, walks);
        return Err(NoDistance);
      }
      queue, queued, graph, walks, found := Visit(g, start, goal, queue, queued, graph, walks, found, i);
    }
    if found.Some? {
      FoundGoal(g, start, goal, queue, queued, graph, walks, found);
      var distance := At(g, graph, goal).value.distance;
      return Ok(distance);
    }
    NothingReached(g, start, goal, queue, queued, graph, walks);
    return Err("exited, but didn't find a path to the goal");
  }

  // ---------------------------------------------------------------- the prefix search

  function Origin(): Point
  {
    Point(0, 0)
  }

  /** The exit, at the bottom-right corner. */
  function Exit(width: nat, height: nat): Point
  {
    Point(width - 1, height - 1)
  }

  /** What the search reports for the first `count + 1` bytes: whether the
      exit is another cell reachable from the top-left corner of the grid
      they leave, or the error of `Grid::new`. */
  ghost function Verdict(width: nat, height: nat, lines: seq<string>, count: nat): Result<bool>
    requires count < |lines|
  {
    var g :- Corrupt(width, height, lines[..count + 1]);
    Ok(Exit(width, height) != Origin() && Reachable(g, Origin(), Exit(width, height)))
  }

  /** Every cell corrupted in `g` is corrupted in `h`. */
  predicate Covers(g: Grid, h: Grid)
  {
    |g.data| == |h.data| && forall i :: 0 <= i < |g.data| && g.data[i] ==> h.data[i]
  }

  /** A route stays a route on a grid with fewer corrupted cells. */
  lemma RouteSurvives(g: Grid, h: Grid, start: Point, path: seq<Point>, end: Point)
    requires Sized(g) && Sized(h) && g.width == h.width && g.height == h.height
    requires Covers(h, g) && Route(g, start, path, end)
    ensures Route(h, start, path, end)
  {
    forall i | 0 <= i < |path| ensures Free(h, path[i]) {
      IndexBounds(g.width, g.height, path[i]);
    }
  }

  /** A longer prefix corrupts every cell a shorter one does. */
  lemma PrefixCells(width: nat, height: nat, lines: seq<string>, k: nat, j: nat)
    requires k <= j < |lines| && Corrupt(width, height, lines[..j + 1]).Ok?
    ensures Corrupt(width, height, lines[..k + 1]).Ok?
    ensures Covers(Corrupt(width, height, lines[..k + 1]).value, Corrupt(width, height, lines[..j + 1]).value)
  {
    var short, long := lines[..k + 1], lines[..j + 1];
    CorruptCells(width, height, short);
    CorruptCells(width, height, long);
    assert forall m :: 0 <= m < |short| ==> short[m] == long[m];
    forall i | 0 <= i < width * height && Hit(width, short, i) ensures Hit(width, long, i) {
      var m :| 0 <= m < |short| && ParseByte(short[m]).Ok? && Target(width, ParseByte(short[m]).value) == i;
      assert long[m] == short[m];
    }
  }

  /** Once the exit is cut off, more bytes never open it again. */
  lemma StaysClosed(width: nat, height: nat, lines: seq<string>, k: nat, j: nat)
    requires k <= j < |lines| && Verdict(width, height, lines, j).Ok?
    ensures Verdict(width, height, lines, k).Ok?
    ensures Verdict(width, height, lines, k) == Ok(false) ==> Verdict(width, height, lines, j) == Ok(false)
  {
    PrefixCells(width, height, lines, k, j);
    var short := Corrupt(width, height, lines[..k + 1]).value;
    var long := Corrupt(width, height, lines[..j + 1]).value;
    if Exit(width, height) != Origin() && Reachable(long, Origin(), Exit(width, height)) {
      var path :| Route(long, Origin(), path, Exit(width, height));
      RouteSurvives(long, short, Origin(), path, Exit(width, height));
    }
  }

  /** A byte that closes the exit right after an open prefix is the first
      byte to close it: every shorter prefix is open and every longer one
      closed. */
  lemma FirstBlocking(width: nat, height: nat, lines: seq<string>, k: nat)
    requires 1 <= k < |lines|
    requires Verdict(width, height, lines, k - 1) == Ok(true) && Verdict(width, height, lines, k) == Ok(false)
    ensures forall j :: 0 <= j < k ==> Verdict(width, height, lines, j) == Ok(true)
    ensures forall j :: k <= j < |lines| && Verdict(width, height, lines, j).Ok? ==>
      Verdict(width, height, lines, j) == Ok(false)
  {
    forall j | 0 <= j < k ensures Verdict(width, height, lines, j) == Ok(true) {
      StaysClosed(width, height, lines, j, k - 1);
    }
    forall j | k <= j < |lines| && Verdict(width, height, lines, j).Ok?
      ensures Verdict(width, height, lines, j) == Ok(false)
    {
      StaysClosed(width, height, lines, k, j);
    }
  }

  /** The variables of `do_it`'s search: the prefix being tried (`count`, the
      index of its last byte), the last open and the last closed prefix seen,
      and what each prefix tried so far gave. */
  datatype Probe = Probe(count: nat, floor: nat, ceiling: nat, checked: seq<Option<bool>>)

  function Unchecked(n: nat): (r: seq<Option<bool>>)
    ensures |r| == n && forall i :: 0 <= i < n ==> r[i].None?
  {
    seq(n, _ => None)
  }

  /** The search starts in the middle with nothing tried. */
  function FirstProbe(n: nat): (s: Probe)
    requires n > 0
    ensures s.count < n && |s.checked| == n
  {
    Probe(n / 2, 0, n - 1, Unchecked(n))
  }

  /** The next prefix after an open one: at least one further, halfway to the
      last closed one when that is further, never past the end. */
  function Forward(count: nat, ceiling: nat, n: nat): (r: nat)
    requires count < n
    ensures count <= r < n && (count + 1 < n ==> r > count)
  {
    var up := if count + 1 > (count + ceiling) / 2 then count + 1 else (count + ceiling) / 2;
    if up > n - 1 then n - 1 else up
  }

  /** The next prefix after a closed one: one back, or halfway back to the
      last open one when that is further. */
  function Backward(count: nat, floor: nat): (r: nat)
    requires count >= 1
    ensures r < count
  {
    if count - 1 < (count + floor) / 2 then count - 1 else (count + floor) / 2
  }

  /** How one round of the search ends. */
  datatype Outcome = Answer(line: string) | Next(probe: Probe) | Stop(msg: string)

  /** One round of `do_it`'s search once the prefix `s.count` is known to be
      `open` or not. A closed prefix right after an open one answers its
      last byte. An open prefix right before a closed one answers its own
      last byte as written in the source, or the next byte when
      `corrected`. Otherwise the search steps forward from an open prefix and
      back from a closed one; stepping back from the first prefix is the
      `usize` underflow panic. */
  function Round(lines: seq<string>, s: Probe, open: bool, corrected: bool): (r: Outcome)
    requires |s.checked| == |lines| && s.count < |lines|
    ensures r.Next? ==> |r.probe.checked| == |lines| && r.probe.count < |lines|
    ensures r.Next? ==> r.probe.checked == s.checked[s.count := Some(open)]
    ensures r.Next? && open ==> r.probe.count >= s.count
    ensures r.Next? && !open ==> r.probe.count < s.count
  {
    var checked := s.checked[s.count := Some(open)];
    var count := s.count;
    if !open && count >= 1 && checked[count - 1] == Some(true) then Answer(lines[count])
    else if open && count + 1 < |lines| && checked[count + 1] == Some(false) then
      Answer(if corrected then lines[count + 1] else lines[count])
    else if open then Next(Probe(Forward(count, s.ceiling, |lines|), count, s.ceiling, checked))
    else if count == 0 then Stop("attempt to subtract with overflow")
    else Next(Probe(Backward(count, s.floor), s.floor, count, checked))
  }

  /** The verdicts on the first `k` prefixes, in order. */
  ghost function Verdicts(width: nat, height: nat, lines: seq<string>, k: nat): (v: seq<Result<bool>>)
    requires k <= |lines|
    ensures |v| == k
  {
    if k == 0 then [] else Verdicts(width, height, lines, k - 1) + [Verdict(width, height, lines, k - 1)]
  }

  lemma {:induction false} VerdictAt(width: nat, height: nat, lines: seq<string>, k: nat, i: nat)
    requires i < k <= |lines|
    ensures Verdicts(width, height, lines, k)[i] == Verdict(width, height, lines, i)
  {
    if i < k - 1 {
      VerdictAt(width, height, lines, k - 1, i);
    }
  }

  /** The prefix search of `do_it` from state `s`, for at most `rounds`
      rounds, given the verdict on each prefix. */
  function Bisect(lines: seq<string>, verdicts: seq<Result<bool>>, s: Probe, rounds: nat, corrected: bool)
    : Result<string>
    requires |verdicts| == |lines| && |s.checked| == |lines| && s.count < |lines|
    decreases rounds
  {
    if rounds == 0 then Err("no answer within the round bound")
    else
      var open :- verdicts[s.count];
      match Round(lines, s, open, corrected)
      case Answer(line) => Ok(line)
      case Stop(msg) => Err(msg)
      case Next(probe) => Bisect(lines, verdicts, probe, rounds - 1, corrected)
  }

  /** Byte `k` closes the exit: the prefix before it is open, the prefix
      ending with it closed. */
  ghost predicate Closes(width: nat, height: nat, lines: seq<string>, k: nat)
    requires 1 <= k < |lines|
  {
    Verdict(width, height, lines, k - 1) == Ok(true) && Verdict(width, height, lines, k) == Ok(false)
  }

  /** What the source's two exits look for: byte `k` closes the exit, or it is
      the last byte before one that does. */
  ghost predicate Blocks(width: nat, height: nat, lines: seq<string>, k: nat)
    requires k < |lines|
  {
    (1 <= k && Closes(width, height, lines, k)) || (k + 1 < |lines| && Closes(width, height, lines, k + 1))
  }

  /** Every prefix marked as tried holds what the search reports for it. */
  ghost predicate Recorded(width: nat, height: nat, lines: seq<string>, checked: seq<Option<bool>>)
  {
    |checked| == |lines| &&
    forall i :: 0 <= i < |checked| && checked[i].Some? ==> Verdict(width, height, lines, i) == Ok(checked[i].value)
  }

  /** `Closes`, `Blocks` and `Recorded` over a given sequence of verdicts. */
  predicate ClosesIn(verdicts: seq<Result<bool>>, k: nat)
    requires 1 <= k < |verdicts|
  {
    verdicts[k - 1] == Ok(true) && verdicts[k] == Ok(false)
  }

  predicate BlocksIn(verdicts: seq<Result<bool>>, k: nat)
    requires k < |verdicts|
  {
    (1 <= k && ClosesIn(verdicts, k)) || (k + 1 < |verdicts| && ClosesIn(verdicts, k + 1))
  }

  predicate RecordedIn(verdicts: seq<Result<bool>>, checked: seq<Option<bool>>)
  {
    |checked| == |verdicts| &&
    forall i :: 0 <= i < |checked| && checked[i].Some? ==> verdicts[i] == Ok(checked[i].value)
  }

  /** The record and the answers over the verdicts of every prefix are the
      record and the answers over the prefixes themselves. */
  lemma VerdictsRecorded(width: nat, height: nat, lines: seq<string>, checked: seq<Option<bool>>)
    requires Recorded(width, height, lines, checked)
    ensures RecordedIn(Verdicts(width, height, lines, |lines|), checked)
  {
    forall i | 0 <= i < |checked| && checked[i].Some?
      ensures Verdicts(width, height, lines, |lines|)[i] == Ok(checked[i].value)
    {
      VerdictAt(width, height, lines, |lines|, i);
    }
  }

  lemma VerdictsClose(width: nat, height: nat, lines: seq<string>, k: nat)
    requires 1 <= k < |lines|
    ensures ClosesIn(Verdicts(width, height, lines, |lines|), k) <==> Closes(width, height, lines, k)
  {
    VerdictAt(width, height, lines, |lines|, k - 1);
    VerdictAt(width, height, lines, |lines|, k);
  }

  lemma VerdictsBlock(width: nat, height: nat, lines: seq<string>, k: nat)
    requires k < |lines|
    ensures BlocksIn(Verdicts(width, height, lines, |lines|), k) <==> Blocks(width, height, lines, k)
  {
    if 1 <= k {
      VerdictsClose(width, height, lines, k);
    }
    if k + 1 < |lines| {
      VerdictsClose(width, height, lines, k + 1);
    }
  }

  /** As written, a round's answer is the last byte of a closed prefix that
      follows an open one, or of an open prefix that precedes a closed one. */
  lemma RoundAsWritten(lines: seq<string>, verdicts: seq<Result<bool>>, s: Probe, open: bool)
    requires |verdicts| == |lines| && s.count < |lines| && RecordedIn(verdicts, s.checked)
    requires verdicts[s.count] == Ok(open) && Round(lines, s, open, false).Answer?
    ensures exists k :: 0 <= k < |lines| && Round(lines, s, open, false).line == lines[k] && BlocksIn(verdicts, k)
  {
    assert BlocksIn(verdicts, s.count);
  }

  /** Corrected, a round's answer is a byte that closes an open prefix. */
  lemma RoundCorrected(lines: seq<string>, verdicts: seq<Result<bool>>, s: Probe, open: bool)
    requires |verdicts| == |lines| && s.count < |lines| && RecordedIn(verdicts, s.checked)
    requires verdicts[s.count] == Ok(open) && Round(lines, s, open, true).Answer?
    ensures exists k :: 1 <= k < |lines| && Round(lines, s, open, true).line == lines[k] && ClosesIn(verdicts, k)
  {
    var count := s.count;
    if !open && count >= 1 && s.checked[count - 1] == Some(true) {
      assert ClosesIn(verdicts, count);
    } else {
      assert ClosesIn(verdicts, count + 1);
    }
  }

  /** As written, every answer of the search is a byte that closes the
      exit or the last byte before one that does. */
  lemma {:induction false} BisectAsWrittenIn(lines: seq<string>, verdicts: seq<Result<bool>>, s: Probe, rounds: nat)
    requires |verdicts| == |lines| && s.count < |lines| && RecordedIn(verdicts, s.checked)
    requires Bisect(lines, verdicts, s, rounds, false).Ok?
    ensures exists k :: 0 <= k < |lines| && Bisect(lines, verdicts, s, rounds, false) == Ok(lines[k]) && BlocksIn(verdicts, k)
    decreases rounds
  {
    var open := verdicts[s.count].value;
    Unfold(lines, verdicts, s, rounds, open, false);
    var round := Round(lines, s, open, false);
    if round.Answer? {
      RoundAsWritten(lines, verdicts, s, open);
    } else {
      BisectAsWrittenIn(lines, verdicts, round.probe, rounds - 1);
    }
  }

  /** Corrected, every answer of the search is a byte that closes the exit. */
  lemma {:induction false} BisectCorrectedIn(lines: seq<string>, verdicts: seq<Result<bool>>, s: Probe, rounds: nat)
    requires |verdicts| == |lines| && s.count < |lines| && RecordedIn(verdicts, s.checked)
    requires Bisect(lines, verdicts, s, rounds, true).Ok?
    ensures exists k :: 1 <= k < |lines| && Bisect(lines, verdicts, s, rounds, true) == Ok(lines[k]) && ClosesIn(verdicts, k)
    decreases rounds
  {
    var open := verdicts[s.count].value;
    Unfold(lines, verdicts, s, rounds, open, true);
    var round := Round(lines, s, open, true);
    if round.Answer? {
      RoundCorrected(lines, verdicts, s, open);
    } else {
      BisectCorrectedIn(lines, verdicts, round.probe, rounds - 1);
    }
  }

  /** As written, an answer is the last byte of a closed prefix that follows
      an open one, or the last byte of an open prefix that precedes a closed
      one. */
  lemma BisectAsWritten(width: nat, height: nat, lines: seq<string>, s: Probe, rounds: nat)
    requires s.count < |lines| && Recorded(width, height, lines, s.checked)
    requires Bisect(lines, Verdicts(width, height, lines, |lines|), s, rounds, false).Ok?
    ensures exists k :: (0 <= k < |lines| && Bisect(lines, Verdicts(width, height, lines, |lines|), s, rounds, false) == Ok(lines[k])
                         && Blocks(width, height, lines, k))
  {
    var verdicts := Verdicts(width, height, lines, |lines|);
    VerdictsRecorded(width, height, lines, s.checked);
    BisectAsWrittenIn(lines, verdicts, s, rounds);
    var k :| 0 <= k < |lines| && Bisect(lines, verdicts, s, rounds, false) == Ok(lines[k]) && BlocksIn(verdicts, k);
    VerdictsBlock(width, height, lines, k);
  }

  /** Corrected, every answer is a byte that closes the exit, and by
      `FirstBlocking` the first one to do so. */
  lemma BisectCorrected(width: nat, height: nat, lines: seq<string>, s: Probe, rounds: nat)
    requires s.count < |lines| && Recorded(width, height, lines, s.checked)
    requires Bisect(lines, Verdicts(width, height, lines, |lines|), s, rounds, true).Ok?
    ensures exists k :: (1 <= k < |lines| && Bisect(lines, Verdicts(width, height, lines, |lines|), s, rounds, true) == Ok(lines[k])
                         && Closes(width, height, lines, k))
  {
    var verdicts := Verdicts(width, height, lines, |lines|);
    VerdictsRecorded(width, height, lines, s.checked);
    BisectCorrectedIn(lines, verdicts, s, rounds);
    var k :| 1 <= k < |lines| && Bisect(lines, verdicts, s, rounds, true) == Ok(lines[k]) && ClosesIn(verdicts, k);
    VerdictsClose(width, height, lines, k);
  }

  /** A search on the grid of a prefix decides that prefix's verdict. */
  lemma Judged(width: nat, height: nat, lines: seq<string>, count: nat, g: Grid, d: Result<nat>)
    requires count < |lines| && Corrupt(width, height, lines[..count + 1]) == Ok(g)
    requires d.Ok? ==> Exit(width, height) != Origin() && Reaches(g, Origin(), Exit(width, height), d.value)
    requires Exit(width, height) != Origin() && Reachable(g, Origin(), Exit(width, height)) ==> d.Ok?
    ensures Verdict(width, height, lines, count) == Ok(d.Ok?)
  {
    if d.Ok? {
      var path :| Route(g, Origin(), path, Exit(width, height)) && |path| == d.value + 1;
    }
  }

  /** Builds the grid of the first `count + 1` bytes and searches it: the
      outcome is that prefix's verdict. */
  method Try(width: nat, height: nat, bytes: seq<string>, count: nat) returns (v: Result<bool>)
    requires count < |bytes|
    ensures v == Verdict(width, height, bytes, count)
  {
    var grid := NewGrid(width, height, bytes[..count + 1]);
    if grid.Err? {
      return Err(grid.msg);
    }
    var result := ShortestPath(grid.value, Point(0, 0), Point(width - 1, height - 1));
    Judged(width, height, bytes, count, grid.value, result);
    return Ok(result.Ok?);
  }

  /** One round of the prefix search, unfolded. */
  lemma Unfold(lines: seq<string>, verdicts: seq<Result<bool>>, s: Probe, rounds: nat, open: bool, corrected: bool)
    requires |verdicts| == |lines| && |s.checked| == |lines| && s.count < |lines| && rounds > 0
    requires verdicts[s.count] == Ok(open)
    ensures Bisect(lines, verdicts, s, rounds, corrected) ==
      match Round(lines, s, open, corrected)
      case Answer(line) => Ok(line)
      case Stop(msg) => Err(msg)
      case Next(probe) => Bisect(lines, verdicts, probe, rounds - 1, corrected)
  {
  }

  /** Records the verdict on the current prefix and decides the next step. */
  method Advance(bytes: seq<string>, s: Probe, open: bool) returns (o: Outcome)
    requires |s.checked| == |bytes| && s.count < |bytes|
    ensures o == Round(bytes, s, open, false)
  {
    var checked := s.checked[s.count := Some(open)];
    var count, floor, ceiling := s.count, s.floor, s.ceiling;
    if checked[count] == Some(false) && count >= 1 && checked[count - 1] == Some(true) {
      return Answer(bytes[count]);
    }
    if checked[count] == Some(true) && count + 1 < |bytes| && checked[count + 1] == Some(false) {
      return Answer(bytes[count]);
    }
    if checked[count] == Some(true) {
      floor := count;
      count := Forward(count, ceiling, |bytes|);
    } else {
      if count == 0 {
        return Stop("attempt to subtract with overflow");
      }
      ceiling := count;
      count := Backward(count, floor);
    }
    return Next(Probe(count, floor, ceiling, checked));
  }

  /** `do_it` after reading the file: the prefix search over the trimmed,
      non-blank lines, for at most `rounds` rounds, with both exits as the
      source writes them. With no bytes at all, `len() - 1` underflows and
      the source panics; here that is an error. */
  method Solve(lines: seq<string>, width: nat, height: nat, rounds: nat) returns (r: Result<string>)
    ensures NonBlankLines(lines) == [] ==> r == Err("attempt to subtract with overflow")
    ensures NonBlankLines(lines) != [] ==>
      r == Bisect(NonBlankLines(lines), Verdicts(width, height, NonBlankLines(lines), |NonBlankLines(lines)|),
                  FirstProbe(|NonBlankLines(lines)|), rounds, false)
  {
    if NonBlankLines(lines) == [] {
      return Err("attempt to subtract with overflow");
    }
    r := Search(NonBlankLines(lines), width, height, rounds);
  }

  /** The prefix search over the non-blank lines `bytes`. */
  method Search(bytes: seq<string>, width: nat, height: nat, rounds: nat) returns (r: Result<string>)
    requires bytes != []
    ensures r == Bisect(bytes, Verdicts(width, height, bytes, |bytes|), FirstProbe(|bytes|), rounds, false)
  {
    var n := |bytes|;
    var probe := FirstProbe(n);
    ghost var verdicts := Verdicts(width, height, bytes, n);
    ghost var answer := Bisect(bytes, verdicts, probe, rounds, false);
    var left := rounds;
    while left > 0
      invariant |probe.checked| == n && probe.count < n
      invariant answer == Bisect(bytes, verdicts, probe, left, false)
    {
      var verdict := Try(width, height, bytes, probe.count);
      VerdictAt(width, height, bytes, n, probe.count);
      if verdict.Err? {
        assert answer == Err(verdict.msg);
        return Err(verdict.msg);
      }
      Unfold(bytes, verdicts, probe, left, verdict.value, false);
      var outcome := Advance(bytes, probe, verdict.value);
      match outcome
      case Answer(line) =>
        assert answer == Ok(line);
        return Ok(line);
      case Stop(msg) =>
        assert answer == Err(msg);
        return Err(msg);
      case Next(next) =>
        probe := next;
        left := left - 1;
    }
    assert answer == Err("no answer within the round bound");
    return Err("no answer within the round bound");
  }

  /** On the 2 x 2 grid with (1, 0) and (0, 1) corrupted, the corner has no
      free neighbour. */
  lemma CornerWalled(g: Grid, q: Point)
    requires g == Grid(2, 2, [false, true, true, false]) && Adjacent(Origin(), q)
    ensures !Free(g, q)
  {
    assert Step(Origin(), Left) == Point(-1, 0) && Step(Origin(), Up) == Point(0, -1);
    assert Step(Origin(), Right) == Point(1, 0) && Step(Origin(), Down) == Point(0, 1);
    if q == Point(1, 0) {
      assert Index(2, q) == 1;
    } else if q == Point(0, 1) {
      assert Index(2, q) == 2;
    }
  }

  /** A sequence that starts at `x` and ends elsewhere leaves `x` at some step. */
  lemma {:induction false} LeavesAt<T>(s: seq<T>, x: T) returns (j: nat)
    requires |s| > 0 && s[0] == x && s[|s| - 1] != x
    ensures 0 < j < |s| && s[j - 1] == x && s[j] != x
  {
    if s[|s| - 2] == x {
      j := |s| - 1;
    } else {
      j := LeavesAt(s[..|s| - 1], x);
    }
  }

  /** The bytes of the example that shows the second exit's answer. */
  const TwoBytes: seq<string> := ["1,0", "0,1"]

  lemma ParseTwoBytes()
    ensures ParseByte("1,0") == Ok((1, 0)) && ParseByte("0,1") == Ok((0, 1))
  {
    ParseByteLine(1, 0);
    ParseByteLine(0, 1);
    assert Decimal(1) + [','] + Decimal(0) == "1,0";
    assert Decimal(0) + [','] + Decimal(1) == "0,1";
  }

  lemma FallenSecond()
    ensures Fallen(2, [false, true, false, false], ["0,1"]) == Ok([false, true, true, false])
  {
    ParseTwoBytes();
    assert Target(2, (0, 1)) == 2;
    assert [false, true, false, false][2 := true] == [false, true, true, false];
    assert Fallen(2, [false, true, true, false], []) == Ok([false, true, true, false]);
  }

  lemma FallenFirst(rest: seq<string>)
    ensures Fallen(2, Clear(4), ["1,0"] + rest) == Fallen(2, [false, true, false, false], rest)
  {
    ParseTwoBytes();
    assert Target(2, (1, 0)) == 1;
    assert Clear(4)[1 := true] == [false, true, false, false];
    assert (["1,0"] + rest)[0] == "1,0" && (["1,0"] + rest)[1..] == rest;
  }

  lemma TwoBytesGrids()
    ensures Corrupt(2, 2, TwoBytes[..1]) == Ok(Grid(2, 2, [false, true, false, false]))
    ensures Corrupt(2, 2, TwoBytes[..2]) == Ok(Grid(2, 2, [false, true, true, false]))
  {
    assert TwoBytes[..1] == ["1,0"] + [] && TwoBytes[..2] == ["1,0"] + ["0,1"];
    FallenFirst([]);
    FallenFirst(["0,1"]);
    FallenSecond();
  }

  /** After the first byte the exit is open: round by (0, 1). */
  lemma TwoBytesOpen()
    ensures Verdict(2, 2, TwoBytes, 0) == Ok(true)
  {
    TwoBytesGrids();
    OpenCorner(Grid(2, 2, [false, true, false, false]));
  }

  /** With only (1, 0) corrupted, the exit is reached down then right. */
  lemma OpenCorner(g: Grid)
    requires g == Grid(2, 2, [false, true, false, false])
    ensures Reachable(g, Origin(), Exit(2, 2))
  {
    var path := [Point(0, 0), Point(0, 1), Point(1, 1)];
    assert Index(2, Point(0, 0)) == 0 && Free(g, path[0]);
    assert Index(2, Point(0, 1)) == 2 && Free(g, path[1]);
    assert Index(2, Point(1, 1)) == 3 && Free(g, path[2]);
    assert Step(path[0], Down) == path[1] && Step(path[1], Right) == path[2];
    assert Route(g, Origin(), path, Exit(2, 2));
  }

  /** After the second byte the exit is closed. */
  lemma TwoBytesClosed()
    ensures Verdict(2, 2, TwoBytes, 1) == Ok(false)
  {
    TwoBytesGrids();
    var closed := Grid(2, 2, [false, true, true, false]);
    if Reachable(closed, Origin(), Exit(2, 2)) {
      var p :| Route(closed, Origin(), p, Exit(2, 2));
      var j := LeavesAt(p, Origin());
      assert Adjacent(p[j - 1], p[j]) && Free(closed, p[j]);
      CornerWalled(closed, p[j]);
      assert false;
    }
  }

  /** With the bytes `1,0` and then `0,1` on a 2 x 2 grid, the search as
      written answers the first byte, which leaves the exit open; the
      corrected search answers the second, the one that closes it. */
  lemma SafeByteAnswered()
    ensures Verdict(2, 2, TwoBytes, 0) == Ok(true) && Closes(2, 2, TwoBytes, 1)
    ensures Bisect(TwoBytes, Verdicts(2, 2, TwoBytes, 2), FirstProbe(2), 2, false) == Ok("1,0")
    ensures Bisect(TwoBytes, Verdicts(2, 2, TwoBytes, 2), FirstProbe(2), 2, true) == Ok("0,1")
  {
    TwoBytesOpen();
    TwoBytesClosed();
    var verdicts := Verdicts(2, 2, TwoBytes, 2);
    VerdictAt(2, 2, TwoBytes, 2, 0);
    VerdictAt(2, 2, TwoBytes, 2, 1);
    var first := FirstProbe(2);
    var second := Probe(0, 0, 1, [None, Some(false)]);
    TwoBytesRounds();
    Unfold(TwoBytes, verdicts, first, 2, false, false);
    Unfold(TwoBytes, verdicts, first, 2, false, true);
    Unfold(TwoBytes, verdicts, second, 1, true, false);
    Unfold(TwoBytes, verdicts, second, 1, true, true);
  }

  /** The two rounds of the search over the two bytes, either way the
      answer is read. */
  lemma TwoBytesRounds()
    ensures FirstProbe(2) == Probe(1, 0, 1, [None, None])
    ensures Round(TwoBytes, FirstProbe(2), false, false) == Next(Probe(0, 0, 1, [None, Some(false)]))
    ensures Round(TwoBytes, FirstProbe(2), false, true) == Next(Probe(0, 0, 1, [None, Some(false)]))
    ensures Round(TwoBytes, Probe(0, 0, 1, [None, Some(false)]), true, false) == Answer("1,0")
    ensures Round(TwoBytes, Probe(0, 0, 1, [None, Some(false)]), true, true) == Answer("0,1")
  {
  }
}
