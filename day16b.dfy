/** Day 16, part two: a maze of walls and empty tiles with a start and a
    goal. A reindeer stands on the start facing right; moving one tile
    forward costs 1 and turning a quarter left or right in place costs 1000.
    A search over (tile, facing) records, for every state, its least cost
    and every state it can be reached from at that cost; walking those
    records back from the cheapest goal states gives every tile on some
    cheapest route, and the answer is how many tiles that is. */
module Day16b {
  import opened Common
  import opened Text
  import opened Grid2D
  import opened MinQueue
  import Track = Day20a

  /** The maze: `cells` holds the tiles row by row (the same walls and empty
      tiles, read from the same characters, as the racetrack of day 20). */
  datatype Maze = Maze(width: nat, height: nat, cells: seq<Track.Cell>, start: Point, goal: Point)

  predicate Sized(m: Maze)
  {
    |m.cells| == m.width * m.height
  }

  predicate OnMaze(m: Maze, p: Point)
  {
    InBounds(m.width, m.height, p)
  }

  /** `get`: the tile at `p`, and a wall off the maze. */
  function Get(m: Maze, p: Point): (c: Track.Cell)
    requires Sized(m)
    ensures !OnMaze(m, p) ==> c == Track.Wall
  {
    if OnMaze(m, p) then
      IndexBounds(m.width, m.height, p);
      m.cells[Index(m.width, p)]
    else
      Track.Wall
  }

  /** What `State::new` guarantees: the cells fill the maze and both the
      start and the goal are empty tiles on it. */
  predicate Valid(m: Maze)
  {
    Sized(m) && Get(m, m.start) == Track.Empty && Get(m, m.goal) == Track.Empty
  }

  // ---------------------------------------------------------------- parsing

  /** `State::new`: all lines the same width, every character one of `#`,
      `.`, `S` and `E` (the first other one in scan order is the error), and
      both an S and an E; the maze keeps the last S and the last E. */
  function ReadMaze(lines: seq<string>): Result<Maze>
  {
    if lines == [] || !SameWidth(lines) then Err("uneven map lines")
    else match Track.FirstIllegalRow(lines, |lines|)
      case Some(p) => Err("unparsable map char: " + [lines[p.y][p.x]])
      case None =>
        var start := Track.LastIn(lines, 'S', |lines|);
        var goal := Track.LastIn(lines, 'E', |lines|);
        if start.Some? && goal.Some? then
          Ok(Maze(|lines[0]|, |lines|, Flatten(Track.TerrainRows(lines)), start.value, goal.value))
        else
          Err("missing start and/or goal position")
  }

  /** `State::new` succeeds exactly on equal-width rows of legal characters
      that hold an S and an E, and the maze it builds is the one the rows
      draw: each tile is the terrain of its character, the start is an S and
      the goal an E, the last of each in scan order. */
  lemma ReadMazeOutcome(lines: seq<string>)
    ensures ReadMaze(lines).Ok? <==>
      lines != [] && SameWidth(lines) && Track.FirstIllegalRow(lines, |lines|).None? &&
      Track.Holds(lines, 'S') && Track.Holds(lines, 'E')
    ensures ReadMaze(lines).Ok? ==>
      var m := ReadMaze(lines).value;
      Valid(m) && m.width == |lines[0]| && m.height == |lines| &&
      (forall p :: OnMaze(m, p) ==> Get(m, p) == Track.Terrain(lines[p.y][p.x])) &&
      lines[m.start.y][m.start.x] == 'S' && lines[m.goal.y][m.goal.x] == 'E' &&
      (forall p :: OnMaze(m, p) && lines[p.y][p.x] == 'S' ==>
        p.y < m.start.y || (p.y == m.start.y && p.x <= m.start.x)) &&
      (forall p :: OnMaze(m, p) && lines[p.y][p.x] == 'E' ==>
        p.y < m.goal.y || (p.y == m.goal.y && p.x <= m.goal.x))
  {
    Track.LastInHolds(lines, 'S');
    Track.LastInHolds(lines, 'E');
    if ReadMaze(lines).Ok? {
      var m := ReadMaze(lines).value;
      var rows := Track.TerrainRows(lines);
      Track.FlatSize(rows, m.width);
      forall p | OnMaze(m, p)
        ensures Get(m, p) == Track.Terrain(lines[p.y][p.x])
      {
        Track.FlatCell(rows, m.width, p);
      }
      assert Get(m, m.start) == Track.Terrain(lines[m.start.y][m.start.x]);
      assert Get(m, m.goal) == Track.Terrain(lines[m.goal.y][m.goal.x]);
    }
  }

  /** `State::new` as the source writes it: a scan row by row, character by
      character, that pushes each tile and records S and E positions. */
  method NewState(lines: seq<string>) returns (r: Result<Maze>)
    ensures r == ReadMaze(lines)
  {
    if lines == [] || !SameWidth(lines) {
      return Err("uneven map lines");
    }
    var scan := Track.Scan([], None, None);
    for y := 0 to |lines|
      invariant Track.ScanRows(lines, y) == Ok(scan)
    {
      ghost var row := scan;
      var line := lines[y];
      for x := 0 to |line|
        invariant Track.ScanRow(row, line, y, x) == Ok(scan)
      {
        var c := line[x];
        var cell;
        match c {
          case '#' => cell := Track.Wall;
          case '.' => cell := Track.Empty;
          case 'S' => cell := Track.Empty;
          case 'E' => cell := Track.Empty;
          case _ =>
            IllegalFirst(lines, row, y, x);
            return Err("unparsable map char: " + [c]);
        }
        scan := Track.Scan(scan.data + [cell],
                           if c == 'S' then Some(Point(x, y)) else scan.start,
                           if c == 'E' then Some(Point(x, y)) else scan.end);
      }
    }
    Track.ScanRowsOutcome(lines, |lines|);
    Track.WholePrefix(Track.TerrainRows(lines));
    if scan.start.Some? && scan.end.Some? {
      return Ok(Maze(|lines[0]|, |lines|, scan.data, scan.start.value, scan.end.value));
    }
    return Err("missing start and/or goal position");
  }

  /** An illegal character met by the scan is the first one in scan order. */
  lemma IllegalFirst(lines: seq<string>, row: Track.Scan, y: nat, x: nat)
    requires lines != [] && SameWidth(lines) && y < |lines| && x < |lines[y]|
    requires Track.ScanRows(lines, y) == Ok(row) && Track.ScanRow(row, lines[y], y, x).Ok?
    requires !Track.Legal(lines[y][x])
    ensures ReadMaze(lines) == Err("unparsable map char: " + [lines[y][x]])
  {
    var c := lines[y][x];
    var message := "illegal character: " + [c];
    assert Track.ScanRow(row, lines[y], y, x + 1) == Err(message);
    Track.ScanRowFails(row, lines[y], y, x + 1, |lines[y]|);
    Track.ScanRowsFail(lines, y + 1, |lines|);
    Track.ScanRowsOutcome(lines, |lines|);
    var p := Track.FirstIllegalRow(lines, |lines|).value;
    assert ("illegal character: " + [lines[p.y][p.x]])[19] == message[19];
  }

  // ---------------------------------------------------------------- states

  /** A state of the search: a tile and the way the reindeer faces on it. */
  datatype Node = Node(position: Point, direction: Direction)

  /** `Direction::index`. */
  function Rank(d: Direction): (i: nat)
    ensures i < 4
  {
    match d
    case Left => 0
    case Right => 1
    case Up => 2
    case Down => 3
  }

  /** The length of the per-state vectors: four facings per tile. */
  function Slots(m: Maze): nat
  {
    m.width * m.height * 4
  }

  /** `GraphNode::index`: one plane of `width * height` slots per facing,
      row-major inside the plane. */
  function NodeIndex(m: Maze, n: Node): int
  {
    Rank(n.direction) * (m.width * m.height) + Index(m.width, n.position)
  }

  /** States on the maze have slots inside the vectors, and distinct states
      distinct slots. */
  lemma NodeIndexBounds(m: Maze, n: Node)
    requires OnMaze(m, n.position)
    ensures 0 <= NodeIndex(m, n) < Slots(m)
  {
    IndexBounds(m.width, m.height, n.position);
    PlaneBound(m.width * m.height, Rank(n.direction), Index(m.width, n.position));
  }

  lemma NodeIndexInjective(m: Maze, a: Node, b: Node)
    requires OnMaze(m, a.position) && OnMaze(m, b.position) && NodeIndex(m, a) == NodeIndex(m, b)
    ensures a == b
  {
    IndexBounds(m.width, m.height, a.position);
    IndexBounds(m.width, m.height, b.position);
    Planes(m.width * m.height, Rank(a.direction), Rank(b.direction), Index(m.width, a.position), Index(m.width, b.position));
    IndexInjective(m.width, m.height, a.position, b.position);
  }

  lemma PlaneBound(area: nat, i: nat, r: int)
    requires i < 4 && 0 <= r < area
    ensures 0 <= i * area + r < area * 4
  {
    assert i * area <= 3 * area;
  }

  lemma Planes(area: nat, i: nat, j: nat, r: int, s: int)
    requires 0 <= r < area && 0 <= s < area && i * area + r == j * area + s
    ensures i == j && r == s
  {
    if i < j {
      RowsApart(i, j, area);
    } else if j < i {
      RowsApart(j, i, area);
    }
  }

  /** The entry of a per-state vector for `n`. */
  function At<T>(m: Maze, s: seq<T>, n: Node): T
    requires |s| == Slots(m) && OnMaze(m, n.position)
  {
    NodeIndexBounds(m, n);
    s[NodeIndex(m, n)]
  }

  /** The vector with the entry for `n` replaced by `v`. */
  function Put<T>(m: Maze, s: seq<T>, n: Node, v: T): (r: seq<T>)
    requires |s| == Slots(m) && OnMaze(m, n.position)
    ensures |r| == |s|
  {
    NodeIndexBounds(m, n);
    s[NodeIndex(m, n) := v]
  }

  lemma AtPut<T>(m: Maze, s: seq<T>, n: Node, v: T)
    requires |s| == Slots(m) && OnMaze(m, n.position)
    ensures forall q: Node :: OnMaze(m, q.position) ==> At(m, Put(m, s, n, v), q) == if q == n then v else At(m, s, q)
  {
    forall q: Node | OnMaze(m, q.position)
      ensures At(m, Put(m, s, n, v), q) == if q == n then v else At(m, s, q)
    {
      NodeIndexBounds(m, q);
      if q != n && NodeIndex(m, q) == NodeIndex(m, n) {
        NodeIndexInjective(m, n, q);
      }
    }
  }

  /** A state on an empty tile: the states the search queues. */
  predicate Open(m: Maze, n: Node)
    requires Sized(m)
  {
    Get(m, n.position) == Track.Empty
  }

  /** The state one tile ahead, facing the same way. */
  function Ahead(n: Node): Node
  {
    Node(Step(n.position, n.direction), n.direction)
  }

  /** The moves out of state `a`: forward onto an empty tile, or a quarter
      turn either way in place. */
  predicate Edge(m: Maze, a: Node, b: Node)
    requires Sized(m)
  {
    (b == Ahead(a) && Open(m, b)) ||
    b == Node(a.position, TurnLeft(a.direction)) || b == Node(a.position, TurnRight(a.direction))
  }

  /** A move in place is a turn and costs 1000; a move to another tile costs 1. */
  function Weight(a: Node, b: Node): nat
  {
    if a.position == b.position then 1000 else 1
  }

  /** `neighbors`: the step forward when the tile ahead is empty, at cost 1,
      then the turn left and the turn right, at cost 1000 each. These are
      moves out of `a`, each once, with their costs (and `MovesComplete`
      shows no move is missing). */
  function Moves(m: Maze, a: Node): (r: seq<(Node, nat)>)
    requires Sized(m)
    ensures forall k :: 0 <= k < |r| ==> Edge(m, a, r[k].0) && r[k].1 == Weight(a, r[k].0)
    ensures forall i, j :: 0 <= i < j < |r| ==> r[i].0 != r[j].0
  {
    var ahead := Ahead(a);
    var left := Node(a.position, TurnLeft(a.direction));
    var right := Node(a.position, TurnRight(a.direction));
    assert ahead.position != a.position && left != right;
    if Get(m, ahead.position) == Track.Empty then [(ahead, 1), (left, 1000), (right, 1000)]
    else [(left, 1000), (right, 1000)]
  }

  lemma MovesComplete(m: Maze, a: Node, b: Node)
    requires Sized(m) && Edge(m, a, b)
    ensures exists k :: 0 <= k < |Moves(m, a)| && Moves(m, a)[k].0 == b
  {
    var r := Moves(m, a);
    if b == Ahead(a) && Open(m, b) {
      assert r[0].0 == b;
    } else if b == Node(a.position, TurnLeft(a.direction)) {
      assert r[|r| - 2].0 == b;
    } else {
      assert r[|r| - 1].0 == b;
    }
  }

  /** A move keeps the reindeer on empty tiles. */
  lemma EdgeOpen(m: Maze, a: Node, b: Node)
    requires Sized(m) && Open(m, a) && Edge(m, a, b)
    ensures Open(m, b)
  {
  }

  /** Turning left and turning right undo each other, and four quarter turns
      the same way bring the reindeer back to its facing. */
  lemma TurnsCancel(d: Direction)
    ensures TurnLeft(TurnRight(d)) == d && TurnRight(TurnLeft(d)) == d
    ensures TurnLeft(TurnLeft(TurnLeft(TurnLeft(d)))) == d
    ensures TurnLeft(d) != d && TurnRight(d) != d && TurnLeft(d) != TurnRight(d)
  {
  }

  // ---------------------------------------------------------------- routes

  /** The state the search starts from: the start tile, facing right. */
  function Origin(m: Maze): Node
  {
    Node(m.start, Right)
  }

  /** `path` moves from the origin to `end` through empty tiles. */
  ghost predicate Route(m: Maze, path: seq<Node>, end: Node)
    requires Sized(m)
  {
    |path| > 0 && path[0] == Origin(m) && path[|path| - 1] == end &&
    (forall i :: 0 <= i < |path| ==> Open(m, path[i])) &&
    (forall i :: 0 <= i < |path| - 1 ==> Edge(m, path[i], path[i + 1]))
  }

  /** The cost of a sequence of moves. */
  function Cost(path: seq<Node>): nat
  {
    if |path| <= 1 then 0
    else Cost(path[..|path| - 1]) + Weight(path[|path| - 2], path[|path| - 1])
  }

  ghost predicate Reaches(m: Maze, n: Node, c: nat)
    requires Sized(m)
  {
    exists path :: Route(m, path, n) && Cost(path) == c
  }

  ghost predicate Reachable(m: Maze, n: Node)
    requires Sized(m)
  {
    exists path :: Route(m, path, n)
  }

  /** `c` is the least cost of reaching `n` from the origin. */
  ghost predicate Shortest(m: Maze, n: Node, c: nat)
    requires Sized(m)
  {
    Reaches(m, n, c) && forall e: nat :: Reaches(m, n, e) ==> c <= e
  }

  /** Every state on an empty tile can be reached from the origin. */
  ghost predicate AllReachable(m: Maze)
    requires Sized(m)
  {
    forall n :: Open(m, n) ==> Reachable(m, n)
  }

  lemma RouteExtend(m: Maze, path: seq<Node>, a: Node, b: Node)
    requires Sized(m) && Route(m, path, a) && Edge(m, a, b)
    ensures Route(m, path + [b], b) && Cost(path + [b]) == Cost(path) + Weight(a, b)
  {
    EdgeOpen(m, a, b);
    assert (path + [b])[..|path|] == path;
  }

  /** Every prefix of a route is a route, costing the moves it makes. */
  lemma RoutePrefix(m: Maze, path: seq<Node>, end: Node, j: nat)
    requires Sized(m) && Route(m, path, end) && j < |path|
    ensures Route(m, path[..j + 1], path[j]) && Reaches(m, path[j], Cost(path[..j + 1]))
  {
  }

  /** The cost of a prefix grows by one move at a time and never exceeds
      the whole. */
  lemma CostStep(path: seq<Node>, j: nat)
    requires j + 1 < |path|
    ensures Cost(path[..j + 2]) == Cost(path[..j + 1]) + Weight(path[j], path[j + 1])
  {
    assert path[..j + 2][..j + 1] == path[..j + 1];
  }

  lemma {:induction false} CostPrefix(path: seq<Node>, j: nat)
    requires j < |path|
    ensures Cost(path[..j + 1]) <= Cost(path)
    decreases |path| - j
  {
    if j + 1 < |path| {
      CostStep(path, j);
      CostPrefix(path, j + 1);
    } else {
      assert path[..j + 1] == path;
    }
  }

  /** Every facing of a reachable tile is reachable: turn in place. */
  lemma TurnsReach(m: Maze, n: Node, d: Direction)
    requires Sized(m) && Reachable(m, n)
    ensures Reachable(m, Node(n.position, d))
  {
    var path :| Route(m, path, n);
    var left := Node(n.position, TurnLeft(n.direction));
    var right := Node(n.position, TurnRight(n.direction));
    RouteExtend(m, path, n, left);
    RouteExtend(m, path, n, right);
    if d != n.direction && d != left.direction && d != right.direction {
      var back := Node(n.position, TurnLeft(left.direction));
      RouteExtend(m, path + [left], left, back);
    }
  }

  // ---------------------------------------------------------------- search

  /** What the search records for a state: `Start` for the origin, otherwise
      the least cost found so far and every state it was reached from at
      that cost. */
  datatype PathElement = Start | Element(distance: nat, previous: seq<Node>)

  /** `effective_distance`: zero at the origin, the recorded cost at a state
      reached, none at a state not reached yet. */
  function Effective(e: Option<PathElement>): (r: Option<nat>)
    ensures r.None? <==> e.None?
    ensures e == Some(Start) ==> r == Some(0)
    ensures e.Some? && e.value.Element? ==> r == Some(e.value.distance)
  {
    match e
    case None => None
    case Some(Start) => Some(0)
    case Some(Element(d, _)) => Some(d)
  }

  /** The cost recorded for `n`; none off the maze. */
  function Dist(m: Maze, graph: seq<Option<PathElement>>, n: Node): Option<nat>
    requires |graph| == Slots(m)
  {
    if OnMaze(m, n.position) then Effective(At(m, graph, n)) else None
  }

  /** The states recorded as leading to `n` at its cost. */
  function Prev(m: Maze, graph: seq<Option<PathElement>>, n: Node): seq<Node>
    requires |graph| == Slots(m)
  {
    if OnMaze(m, n.position) && At(m, graph, n).Some? && At(m, graph, n).value.Element? then
      At(m, graph, n).value.previous
    else
      []
  }

  /** The effective costs of the queued states. */
  function Keys(m: Maze, graph: seq<Option<PathElement>>, queue: seq<Node>): (r: seq<Option<nat>>)
    requires |graph| == Slots(m)
    ensures |r| == |queue| && forall i :: 0 <= i < |queue| ==> r[i] == Dist(m, graph, queue[i])
  {
    seq(|queue|, i requires 0 <= i < |queue| => Dist(m, graph, queue[i]))
  }

  function Unreached(n: nat): (r: seq<Option<PathElement>>)
    ensures |r| == n && forall i :: 0 <= i < n ==> r[i].None?
  {
    seq(n, _ => None)
  }

  /** The queue holds distinct open states, each marked as queued, and every
      state marked as queued is in it. */
  ghost predicate Queued(m: Maze, queue: seq<Node>, queued: seq<bool>)
    requires Sized(m)
  {
    |queued| == Slots(m) &&
    (forall i :: 0 <= i < |queue| ==> Open(m, queue[i]) && At(m, queued, queue[i])) &&
    (forall n: Node {:trigger At(m, queued, n)} :: OnMaze(m, n.position) && At(m, queued, n) ==> Open(m, n) && n in queue) &&
    (forall n :: multiset(queue)[n] <= 1)
  }

  /** Every state with a cost is open and has a route of that cost from the
      origin, recorded in `walks`. */
  ghost predicate Tracked(m: Maze, graph: seq<Option<PathElement>>, walks: map<Node, seq<Node>>)
    requires Sized(m)
  {
    |graph| == Slots(m) &&
    forall n {:trigger Dist(m, graph, n)} :: Dist(m, graph, n).Some? ==>
      Open(m, n) && n in walks && Route(m, walks[n], n) && Cost(walks[n]) == Dist(m, graph, n).value
  }

  /** An open state taken off the queue. */
  predicate Settled(m: Maze, queued: seq<bool>, n: Node)
    requires Sized(m) && |queued| == Slots(m)
  {
    Open(m, n) && !At(m, queued, n)
  }

  /** The cost at `n` is no more than any route's. */
  ghost predicate Exact(m: Maze, graph: seq<Option<PathElement>>, n: Node)
    requires Sized(m) && |graph| == Slots(m)
  {
    Dist(m, graph, n).Some? && forall c: nat :: Reaches(m, n, c) ==> Dist(m, graph, n).value <= c
  }

  /** Every queued state one move from `a` costs at most `a`'s cost plus the
      move, and lists `a` as a predecessor when it costs exactly that. */
  ghost predicate Bounded(m: Maze, queued: seq<bool>, graph: seq<Option<PathElement>>, a: Node)
    requires Sized(m) && |queued| == |graph| == Slots(m) && Dist(m, graph, a).Some?
  {
    forall b {:trigger Edge(m, a, b)} :: Edge(m, a, b) && Open(m, b) && At(m, queued, b) ==>
      Dist(m, graph, b).Some? && Dist(m, graph, b).value <= Dist(m, graph, a).value + Weight(a, b) &&
      (Dist(m, graph, b).value == Dist(m, graph, a).value + Weight(a, b) ==> a in Prev(m, graph, b))
  }

  /** Every settled state holds its least cost, and every one except perhaps
      `skip` has bounded the states one move on. */
  ghost predicate SettledBut(m: Maze, queued: seq<bool>, graph: seq<Option<PathElement>>, skip: Option<Node>)
    requires Sized(m) && |queued| == |graph| == Slots(m)
  {
    forall a {:trigger Settled(m, queued, a)} :: Settled(m, queued, a) ==>
      Exact(m, graph, a) && (Some(a) != skip ==> Bounded(m, queued, graph, a))
  }

  /** No settled state costs more than a queued one. */
  ghost predicate Floor(m: Maze, queued: seq<bool>, graph: seq<Option<PathElement>>)
    requires Sized(m) && |queued| == |graph| == Slots(m)
  {
    forall a, b {:trigger Settled(m, queued, a), At(m, queued, b)} ::
      Settled(m, queued, a) && Open(m, b) && At(m, queued, b) && Dist(m, graph, a).Some? && Dist(m, graph, b).Some? ==>
      Dist(m, graph, a).value <= Dist(m, graph, b).value
  }

  /** Every recorded predecessor is settled and one move away at exactly the
      recorded cost. */
  ghost predicate Preds(m: Maze, queued: seq<bool>, graph: seq<Option<PathElement>>)
    requires Sized(m) && |queued| == |graph| == Slots(m)
  {
    forall a, b {:trigger a in Prev(m, graph, b)} :: a in Prev(m, graph, b) ==>
      Settled(m, queued, a) && Edge(m, a, b) && Dist(m, graph, a).Some? && Dist(m, graph, b).Some? &&
      Dist(m, graph, a).value + Weight(a, b) == Dist(m, graph, b).value
  }

  /** Between settled states, every move at exactly the recorded cost is
      recorded as a predecessor. */
  ghost predicate Tight(m: Maze, queued: seq<bool>, graph: seq<Option<PathElement>>)
    requires Sized(m) && |queued| == |graph| == Slots(m)
  {
    forall a, b {:trigger a in Prev(m, graph, b)} ::
      Settled(m, queued, a) && Settled(m, queued, b) && Edge(m, a, b) &&
      Dist(m, graph, a).Some? && Dist(m, graph, b).Some? &&
      Dist(m, graph, a).value + Weight(a, b) == Dist(m, graph, b).value ==>
        a in Prev(m, graph, b)
  }

  /** The origin, and only the origin, is recorded as `Start`. */
  ghost predicate Seeded(m: Maze, graph: seq<Option<PathElement>>)
    requires |graph| == Slots(m)
  {
    forall n: Node {:trigger At(m, graph, n)} :: OnMaze(m, n.position) ==> (At(m, graph, n) == Some(Start) <==> n == Origin(m))
  }

  /** The invariant of the main loop of `count_all_tiles_on_shortest_path`. */
  ghost predicate Searching(m: Maze, queue: seq<Node>, queued: seq<bool>,
                            graph: seq<Option<PathElement>>, walks: map<Node, seq<Node>>)
  {
    Valid(m) && |queued| == |graph| == Slots(m) &&
    Queued(m, queue, queued) && Tracked(m, graph, walks) && SettledBut(m, queued, graph, None) &&
    Floor(m, queued, graph) && Preds(m, queued, graph) && Tight(m, queued, graph) && Seeded(m, graph)
  }

  /** The facings in the order the set-up loop queues them. */
  const Facings: seq<Direction> := [Left, Right, Up, Down]

  /** The column-by-column set-up scan has passed state `n` once it reaches
      facing `k` of tile (x, y). */
  predicate Seen(n: Node, x: int, y: int, k: int)
  {
    n.position.x < x || (n.position.x == x && n.position.y < y) ||
    (n.position == Point(x, y) && Rank(n.direction) < k)
  }

  /** The set-up state at facing `k` of tile (x, y): the open states seen so
      far are queued, once each, and the origin is marked once seen. */
  ghost predicate Enqueued(m: Maze, queue: seq<Node>, queued: seq<bool>,
                           graph: seq<Option<PathElement>>, x: int, y: int, k: int)
  {
    Valid(m) && |queued| == |graph| == Slots(m) &&
    (forall i :: 0 <= i < |queue| ==> Open(m, queue[i]) && At(m, queued, queue[i])) &&
    (forall n :: multiset(queue)[n] <= 1) &&
    (forall n: Node :: OnMaze(m, n.position) ==> (At(m, queued, n) <==> Open(m, n) && Seen(n, x, y, k))) &&
    (forall n: Node :: OnMaze(m, n.position) && At(m, queued, n) ==> n in queue) &&
    (forall n: Node :: OnMaze(m, n.position) ==>
      At(m, graph, n) == if n == Origin(m) && Seen(n, x, y, k) then Some(Start) else None)
  }

  lemma SetUpStart(m: Maze)
    requires Valid(m)
    ensures Enqueued(m, [], Track.Clear(Slots(m)), Unreached(Slots(m)), 0, 0, 0)
  {
    var queued, graph := Track.Clear(Slots(m)), Unreached(Slots(m));
    forall n: Node | OnMaze(m, n.position)
      ensures !At(m, queued, n) && At(m, graph, n).None?
    {
      NodeIndexBounds(m, n);
    }
  }

  lemma NextColumn(m: Maze, queue: seq<Node>, queued: seq<bool>, graph: seq<Option<PathElement>>, x: int)
    requires Enqueued(m, queue, queued, graph, x, m.height, 0)
    ensures Enqueued(m, queue, queued, graph, x + 1, 0, 0)
  {
    assert forall n: Node :: OnMaze(m, n.position) ==> (Seen(n, x, m.height, 0) <==> Seen(n, x + 1, 0, 0));
  }

  /** Done with tile (x, y): after its four facings, or at once for a wall. */
  lemma NextTile(m: Maze, queue: seq<Node>, queued: seq<bool>, graph: seq<Option<PathElement>>, x: int, y: int, k: int)
    requires Enqueued(m, queue, queued, graph, x, y, k)
    requires k == 4 || (k == 0 && Get(m, Point(x, y)) != Track.Empty)
    ensures Enqueued(m, queue, queued, graph, x, y + 1, 0)
  {
    forall n: Node | OnMaze(m, n.position)
      ensures (Open(m, n) && Seen(n, x, y, k)) <==> (Open(m, n) && Seen(n, x, y + 1, 0))
      ensures (n == Origin(m) && Seen(n, x, y, k)) <==> (n == Origin(m) && Seen(n, x, y + 1, 0))
    {
    }
  }

  /** Facing `k` of the empty tile (x, y) joins the queue; the origin is
      marked `Start`. */
  lemma EnqueueNode(m: Maze, queue: seq<Node>, queued: seq<bool>, graph: seq<Option<PathElement>>,
                    x: int, y: int, k: nat)
    requires Enqueued(m, queue, queued, graph, x, y, k) && k < 4
    requires OnMaze(m, Point(x, y)) && Get(m, Point(x, y)) == Track.Empty
    ensures var n := Node(Point(x, y), Facings[k]);
      Enqueued(m, queue + [n], Put(m, queued, n, true),
               if n == Origin(m) then Put(m, graph, n, Some(Start)) else graph, x, y, k + 1)
  {
    var n := Node(Point(x, y), Facings[k]);
    assert Rank(Facings[k]) == k;
    AtPut(m, queued, n, true);
    AtPut(m, graph, n, Some(Start));
    assert forall i :: 0 <= i < |queue| ==> queue[i] != n;
    assert multiset(queue + [n]) == multiset(queue) + multiset{n};
    forall q: Node | OnMaze(m, q.position)
      ensures Seen(q, x, y, k + 1) <==> Seen(q, x, y, k) || q == n
    {
      if q.position == Point(x, y) && Rank(q.direction) == k {
        assert q.direction == Facings[k];
      }
    }
  }

  /** The set-up loops of `count_all_tiles_on_shortest_path`: column by
      column, all four facings of each empty tile join the queue, and the
      origin is recorded as `Start`. */
  method Enqueue(m: Maze) returns (queue: seq<Node>, queued: seq<bool>, graph: seq<Option<PathElement>>)
    requires Valid(m)
    ensures Enqueued(m, queue, queued, graph, m.width, 0, 0)
  {
    queue := [];
    queued := Track.Clear(Slots(m));
    graph := Unreached(Slots(m));
    SetUpStart(m);
    for x := 0 to m.width
      invariant Enqueued(m, queue, queued, graph, x, 0, 0)
    {
      for y := 0 to m.height
        invariant Enqueued(m, queue, queued, graph, x, y, 0)
      {
        var p := Point(x, y);
        if Get(m, p) == Track.Empty {
          for k := 0 to 4
            invariant Enqueued(m, queue, queued, graph, x, y, k)
          {
            var node := Node(p, Facings[k]);
            EnqueueNode(m, queue, queued, graph, x, y, k);
            queue := queue + [node];
            queued := Put(m, queued, node, true);
            if Facings[k] == Right && p == m.start {
              graph := Put(m, graph, node, Some(Start));
            }
          }
          NextTile(m, queue, queued, graph, x, y, 4);
        } else {
          NextTile(m, queue, queued, graph, x, y, 0);
        }
      }
      NextColumn(m, queue, queued, graph, x);
    }
  }

  /** After the set-up every open state is queued and only the origin has a
      cost. */
  lemma SetUpDone(m: Maze, queue: seq<Node>, queued: seq<bool>, graph: seq<Option<PathElement>>)
    requires Enqueued(m, queue, queued, graph, m.width, 0, 0)
    ensures Searching(m, queue, queued, graph, map[Origin(m) := [Origin(m)]])
  {
    assert Route(m, [Origin(m)], Origin(m));
    forall b: Node
      ensures Prev(m, graph, b) == []
    {
    }
  }

  /** Taking `queue[i]` off the queue keeps the queue bookkeeping. */
  lemma Popped(m: Maze, queue: seq<Node>, queued: seq<bool>, i: nat)
    requires Sized(m) && Queued(m, queue, queued) && i < |queue|
    ensures Queued(m, SwapRemove(queue, i), Put(m, queued, queue[i], false))
    ensures forall n :: n in SwapRemove(queue, i) ==> n in queue
  {
    var next := queue[i];
    var queue', queued' := SwapRemove(queue, i), Put(m, queued, next, false);
    AtPut(m, queued, next, false);
    assert multiset(queue)[next] == 1;
    forall k | 0 <= k < |queue'|
      ensures Open(m, queue'[k]) && At(m, queued', queue'[k])
    {
      var q := queue'[k];
      assert q in multiset(queue');
      assert q in multiset(queue);
      assert q != next;
    }
    forall n: Node | OnMaze(m, n.position) && At(m, queued', n)
      ensures Open(m, n) && n in queue'
    {
      assert multiset(queue')[n] == multiset(queue)[n];
    }
    forall n | n in queue'
      ensures n in queue
    {
      assert n in multiset(queue');
    }
  }

  /** Along a route from the origin to a queued state, the states up to the
      first queued one cost no more than the route's prefix to them, so some
      queued state costs no more than the whole route. */
  lemma {:induction false} Frontier(m: Maze, queue: seq<Node>, queued: seq<bool>,
                                    graph: seq<Option<PathElement>>, walks: map<Node, seq<Node>>,
                                    path: seq<Node>, end: Node, j: nat)
    requires Searching(m, queue, queued, graph, walks)
    requires Route(m, path, end) && At(m, queued, end) && j < |path|
    requires Dist(m, graph, path[j]).Some? && Dist(m, graph, path[j]).value <= Cost(path[..j + 1])
    ensures exists k :: 0 <= k < |queue| && Dist(m, graph, queue[k]).Some? &&
                        Dist(m, graph, queue[k]).value <= Cost(path)
    decreases |path| - j
  {
    var a := path[j];
    CostPrefix(path, j);
    if At(m, queued, a) {
      var k :| 0 <= k < |queue| && queue[k] == a;
    } else {
      assert Settled(m, queued, a);
      assert path[..j + 1] != path;
      var b := path[j + 1];
      CostStep(path, j);
      assert Bounded(m, queued, graph, a);
      assert Edge(m, a, b) && Open(m, b);
      if !At(m, queued, b) {
        assert Settled(m, queued, b);
        RoutePrefix(m, path, end, j + 1);
      }
      Frontier(m, queue, queued, graph, walks, path, end, j + 1);
    }
  }

  /** The queued state the search picks holds the least cost of any route to it. */
  lemma PickedExact(m: Maze, queue: seq<Node>, queued: seq<bool>,
                    graph: seq<Option<PathElement>>, walks: map<Node, seq<Node>>, i: nat)
    requires Searching(m, queue, queued, graph, walks) && i < |queue|
    requires i == Pick(Keys(m, graph, queue)) && Dist(m, graph, queue[i]).Some?
    ensures Exact(m, graph, queue[i])
  {
    var keys := Keys(m, graph, queue);
    forall c: nat | Reaches(m, queue[i], c)
      ensures Dist(m, graph, queue[i]).value <= c
    {
      var path :| Route(m, path, queue[i]) && Cost(path) == c;
      assert path[..1] == [Origin(m)];
      Frontier(m, queue, queued, graph, walks, path, queue[i], 0);
      var k :| 0 <= k < |queue| && Dist(m, graph, queue[k]).Some? && Dist(m, graph, queue[k]).value <= c;
      assert !Above(keys[k], keys[i]);
    }
  }

  /** When no queued state has a cost, no queued state can be reached. */
  lemma NothingReached(m: Maze, queue: seq<Node>, queued: seq<bool>,
                       graph: seq<Option<PathElement>>, walks: map<Node, seq<Node>>, i: nat)
    requires Searching(m, queue, queued, graph, walks) && i < |queue|
    requires forall k :: 0 <= k < |queue| ==> Dist(m, graph, queue[k]).None?
    ensures Open(m, queue[i]) && !Reachable(m, queue[i])
  {
    if Reachable(m, queue[i]) {
      var path :| Route(m, path, queue[i]);
      assert path[..1] == [Origin(m)];
      Frontier(m, queue, queued, graph, walks, path, queue[i], 0);
    }
  }

  /** The search stops with an error only when some open state is
      unreachable: the cheapest queued state has no cost, so none has. */
  lemma Stuck(m: Maze, queue: seq<Node>, queued: seq<bool>,
              graph: seq<Option<PathElement>>, walks: map<Node, seq<Node>>)
    requires Searching(m, queue, queued, graph, walks) && queue != []
    requires Keys(m, graph, queue)[Pick(Keys(m, graph, queue))].None?
    ensures !AllReachable(m)
  {
    var keys := Keys(m, graph, queue);
    var i := Pick(keys);
    PickedNothing(keys, i);
    NothingReached(m, queue, queued, graph, walks, i);
  }

  /** What `next`'s move `mv` has left behind once relaxed: a queued state
      one move on costs at most `current` plus the move, and lists `next`
      when it costs exactly that. */
  ghost predicate Relaxed(m: Maze, queued: seq<bool>, graph: seq<Option<PathElement>>,
                          next: Node, current: nat, mv: (Node, nat))
    requires Sized(m) && |queued| == |graph| == Slots(m)
  {
    Open(m, mv.0) && At(m, queued, mv.0) ==>
      Dist(m, graph, mv.0).Some? && Dist(m, graph, mv.0).value <= current + mv.1 &&
      (Dist(m, graph, mv.0).value == current + mv.1 ==> next in Prev(m, graph, mv.0))
  }

  /** The state of the neighbour loop after the first `k` moves out of
      `next`, which holds its least cost `current`: the routes, the settled
      states and the predecessor records are kept, `next` costs no less than
      any settled state, it is listed by none of the states its remaining
      moves reach, and the moves seen so far are relaxed. */
  ghost predicate Relaxing(m: Maze, next: Node, current: nat, queue: seq<Node>, queued: seq<bool>,
                           graph: seq<Option<PathElement>>, walks: map<Node, seq<Node>>, k: nat)
  {
    Valid(m) && |queued| == |graph| == Slots(m) && k <= |Moves(m, next)| &&
    Queued(m, queue, queued) && Settled(m, queued, next) &&
    Tracked(m, graph, walks) && SettledBut(m, queued, graph, Some(next)) &&
    Floor(m, queued, graph) && Preds(m, queued, graph) && Tight(m, queued, graph) && Seeded(m, graph) &&
    Dist(m, graph, next) == Some(current) &&
    (forall a :: Settled(m, queued, a) && Dist(m, graph, a).Some? ==> Dist(m, graph, a).value <= current) &&
    (forall j :: k <= j < |Moves(m, next)| ==> next !in Prev(m, graph, Moves(m, next)[j].0)) &&
    (forall j :: 0 <= j < k ==> Relaxed(m, queued, graph, next, current, Moves(m, next)[j]))
  }

  /** Taking the picked state off the queue starts its neighbour loop. */
  lemma Taken(m: Maze, queue: seq<Node>, queued: seq<bool>,
              graph: seq<Option<PathElement>>, walks: map<Node, seq<Node>>, i: nat)
    requires Searching(m, queue, queued, graph, walks) && i < |queue|
    requires i == Pick(Keys(m, graph, queue)) && Dist(m, graph, queue[i]).Some?
    ensures Relaxing(m, queue[i], Dist(m, graph, queue[i]).value, SwapRemove(queue, i),
                     Put(m, queued, queue[i], false), graph, walks, 0)
  {
    var next := queue[i];
    var queued' := Put(m, queued, next, false);
    PickedExact(m, queue, queued, graph, walks, i);
    Popped(m, queue, queued, i);
    AtPut(m, queued, next, false);
    TakenSettled(m, queue, queued, graph, walks, i);
    TakenFloor(m, queue, queued, graph, walks, i);
    TakenTight(m, queue, queued, graph, walks, i);
    forall a | Settled(m, queued', a) && Dist(m, graph, a).Some?
      ensures Dist(m, graph, a).value <= Dist(m, graph, next).value
    {
      if a != next {
        assert Settled(m, queued, a);
      }
    }
  }

  /** After taking `queue[i]` off, a state is settled when it was before or
      is the one taken. */
  lemma TakenStates(m: Maze, queued: seq<bool>, next: Node)
    requires Sized(m) && |queued| == Slots(m) && OnMaze(m, next.position)
    ensures forall a :: Settled(m, Put(m, queued, next, false), a) <==> Settled(m, queued, a) || (a == next && Open(m, next))
    ensures forall b: Node :: OnMaze(m, b.position) && At(m, Put(m, queued, next, false), b) ==> At(m, queued, b) && b != next
  {
    AtPut(m, queued, next, false);
  }

  lemma TakenSettled(m: Maze, queue: seq<Node>, queued: seq<bool>,
                     graph: seq<Option<PathElement>>, walks: map<Node, seq<Node>>, i: nat)
    requires Searching(m, queue, queued, graph, walks) && i < |queue| && Exact(m, graph, queue[i])
    ensures SettledBut(m, Put(m, queued, queue[i], false), graph, Some(queue[i]))
    ensures Preds(m, Put(m, queued, queue[i], false), graph)
  {
    var next := queue[i];
    var queued' := Put(m, queued, next, false);
    TakenStates(m, queued, next);
    forall a | Settled(m, queued', a)
      ensures Exact(m, graph, a) && (a != next ==> Bounded(m, queued', graph, a))
    {
      if a != next {
        assert Bounded(m, queued, graph, a);
      }
    }
  }

  lemma TakenFloor(m: Maze, queue: seq<Node>, queued: seq<bool>,
                   graph: seq<Option<PathElement>>, walks: map<Node, seq<Node>>, i: nat)
    requires Searching(m, queue, queued, graph, walks) && i < |queue|
    requires i == Pick(Keys(m, graph, queue)) && Dist(m, graph, queue[i]).Some?
    ensures Floor(m, Put(m, queued, queue[i], false), graph)
  {
    var next := queue[i];
    var keys := Keys(m, graph, queue);
    var queued' := Put(m, queued, next, false);
    TakenStates(m, queued, next);
    forall a, b | Settled(m, queued', a) && Open(m, b) && At(m, queued', b) &&
                  Dist(m, graph, a).Some? && Dist(m, graph, b).Some?
      ensures Dist(m, graph, a).value <= Dist(m, graph, b).value
    {
      if a == next {
        var j :| 0 <= j < |queue| && queue[j] == b;
        assert !Above(keys[j], keys[i]);
      }
    }
  }

  lemma TakenTight(m: Maze, queue: seq<Node>, queued: seq<bool>,
                   graph: seq<Option<PathElement>>, walks: map<Node, seq<Node>>, i: nat)
    requires Searching(m, queue, queued, graph, walks) && i < |queue| && Dist(m, graph, queue[i]).Some?
    ensures Tight(m, Put(m, queued, queue[i], false), graph)
  {
    var next := queue[i];
    var queued' := Put(m, queued, next, false);
    TakenStates(m, queued, next);
    forall a, b | Settled(m, queued', a) && Settled(m, queued', b) && Edge(m, a, b) &&
                  Dist(m, graph, a).Some? && Dist(m, graph, b).Some?
      ensures Dist(m, graph, a).value + Weight(a, b) == Dist(m, graph, b).value ==> a in Prev(m, graph, b)
    {
      if a == next && b != next {
        assert Settled(m, queued, b);
      } else if b == next && a != next {
        assert Bounded(m, queued, graph, a);
      }
    }
  }

  /** Replacing the record of `b` changes its cost and predecessors and no
      other state's. */
  lemma Updated(m: Maze, graph: seq<Option<PathElement>>, b: Node, e: PathElement)
    requires |graph| == Slots(m) && OnMaze(m, b.position)
    ensures forall n ::
              Dist(m, Put(m, graph, b, Some(e)), n) == if n == b then Effective(Some(e)) else Dist(m, graph, n)
    ensures forall n ::
              Prev(m, Put(m, graph, b, Some(e)), n) == if n == b then (if e.Element? then e.previous else []) else Prev(m, graph, n)
  {
    AtPut(m, graph, b, Some(e));
  }

  /** `graph'` differs from `graph` at most in the record of `b`, which
      now costs `current + w` through the move from `next`, no more than
      before, and whose predecessors are `next` and, when the cost is
      unchanged, the old ones. */
  ghost predicate Rerecords(m: Maze, next: Node, current: nat, w: nat, queued: seq<bool>,
                            graph: seq<Option<PathElement>>, graph': seq<Option<PathElement>>, b: Node)
    requires Sized(m) && |queued| == |graph| == |graph'| == Slots(m)
  {
    Open(m, b) && At(m, queued, b) && Edge(m, next, b) && w == Weight(next, b) &&
    Settled(m, queued, next) && Dist(m, graph, next) == Some(current) &&
    (forall n :: n != b ==> Dist(m, graph', n) == Dist(m, graph, n) && Prev(m, graph', n) == Prev(m, graph, n)) &&
    (forall n: Node :: OnMaze(m, n.position) && n != b ==> At(m, graph', n) == At(m, graph, n)) &&
    Dist(m, graph', b) == Some(current + w) && At(m, graph', b).Some? && At(m, graph', b).value.Element? &&
    (Dist(m, graph, b).None? || current + w <= Dist(m, graph, b).value) &&
    next in Prev(m, graph', b) &&
    (forall a :: a in Prev(m, graph', b) ==> a == next || (a in Prev(m, graph, b) && Dist(m, graph, b) == Some(current + w))) &&
    (Dist(m, graph, b) == Some(current + w) ==> forall a :: a in Prev(m, graph, b) ==> a in Prev(m, graph', b))
  }

  /** Settled states keep their least costs and bounds across a rerecord. */
  lemma RerecordSettled(m: Maze, next: Node, current: nat, w: nat, queued: seq<bool>,
                        graph: seq<Option<PathElement>>, graph': seq<Option<PathElement>>, b: Node)
    requires Sized(m) && |queued| == |graph| == |graph'| == Slots(m)
    requires Rerecords(m, next, current, w, queued, graph, graph', b)
    requires SettledBut(m, queued, graph, Some(next))
    ensures SettledBut(m, queued, graph', Some(next))
  {
    forall a | Settled(m, queued, a)
      ensures Exact(m, graph', a) && (a != next ==> Bounded(m, queued, graph', a))
    {
      assert a != b;
      if a != next {
        assert Bounded(m, queued, graph, a);
        forall c | Edge(m, a, c) && Open(m, c) && At(m, queued, c)
          ensures Dist(m, graph', c).Some? && Dist(m, graph', c).value <= Dist(m, graph', a).value + Weight(a, c) &&
            (Dist(m, graph', c).value == Dist(m, graph', a).value + Weight(a, c) ==> a in Prev(m, graph', c))
        {
        }
      }
    }
  }

  /** The order between settled and queued states survives a rerecord when
      `next` costs no less than any settled state. */
  lemma RerecordFloor(m: Maze, next: Node, current: nat, w: nat, queued: seq<bool>,
                      graph: seq<Option<PathElement>>, graph': seq<Option<PathElement>>, b: Node)
    requires Sized(m) && |queued| == |graph| == |graph'| == Slots(m)
    requires Rerecords(m, next, current, w, queued, graph, graph', b)
    requires Floor(m, queued, graph)
    requires forall a :: Settled(m, queued, a) && Dist(m, graph, a).Some? ==> Dist(m, graph, a).value <= current
    ensures Floor(m, queued, graph')
  {
    forall a, c | Settled(m, queued, a) && Open(m, c) && At(m, queued, c) &&
                  Dist(m, graph', a).Some? && Dist(m, graph', c).Some?
      ensures Dist(m, graph', a).value <= Dist(m, graph', c).value
    {
      assert a != b;
    }
  }

  /** Predecessor records stay sound and complete across a rerecord. */
  lemma RerecordPreds(m: Maze, next: Node, current: nat, w: nat, queued: seq<bool>,
                      graph: seq<Option<PathElement>>, graph': seq<Option<PathElement>>, b: Node)
    requires Sized(m) && |queued| == |graph| == |graph'| == Slots(m)
    requires Rerecords(m, next, current, w, queued, graph, graph', b)
    requires Preds(m, queued, graph) && Tight(m, queued, graph)
    ensures Preds(m, queued, graph') && Tight(m, queued, graph')
  {
    forall a, c | a in Prev(m, graph', c)
      ensures Settled(m, queued, a) && Edge(m, a, c) && Dist(m, graph', a).Some? && Dist(m, graph', c).Some? &&
              Dist(m, graph', a).value + Weight(a, c) == Dist(m, graph', c).value
    {
      if c == b && a != next {
        assert a in Prev(m, graph, b);
      }
    }
    forall a, c | Settled(m, queued, a) && Settled(m, queued, c) && Edge(m, a, c) &&
                  Dist(m, graph', a).Some? && Dist(m, graph', c).Some?
      ensures Dist(m, graph', a).value + Weight(a, c) == Dist(m, graph', c).value ==> a in Prev(m, graph', c)
    {
      assert a != b && c != b;
    }
  }

  /** Only the origin stays recorded as `Start` across a rerecord. */
  lemma RerecordSeeded(m: Maze, next: Node, current: nat, w: nat, queued: seq<bool>,
                       graph: seq<Option<PathElement>>, graph': seq<Option<PathElement>>, b: Node)
    requires Sized(m) && |queued| == |graph| == |graph'| == Slots(m)
    requires Rerecords(m, next, current, w, queued, graph, graph', b)
    requires Seeded(m, graph)
    ensures Seeded(m, graph')
  {
    assert w >= 1;
    assert At(m, graph, b) != Some(Start);
  }

  /** All four parts of the search invariant that a rerecord touches. */
  lemma Rerecorded(m: Maze, next: Node, current: nat, queue: seq<Node>, queued: seq<bool>,
                   graph: seq<Option<PathElement>>, walks: map<Node, seq<Node>>, k: nat,
                   graph': seq<Option<PathElement>>, walks': map<Node, seq<Node>>)
    requires Relaxing(m, next, current, queue, queued, graph, walks, k) && k < |Moves(m, next)| && |graph'| == Slots(m)
    requires Rerecords(m, next, current, Moves(m, next)[k].1, queued, graph, graph', Moves(m, next)[k].0)
    requires Tracked(m, graph', walks')
    ensures Relaxing(m, next, current, queue, queued, graph', walks', k + 1)
  {
    var moves := Moves(m, next);
    var b, w := moves[k].0, moves[k].1;
    RerecordSettled(m, next, current, w, queued, graph, graph', b);
    RerecordFloor(m, next, current, w, queued, graph, graph', b);
    RerecordPreds(m, next, current, w, queued, graph, graph', b);
    RerecordSeeded(m, next, current, w, queued, graph, graph', b);
    assert forall j :: k < j < |moves| ==> moves[j].0 != b;
    assert forall j :: 0 <= j < k ==> moves[j].0 != b;
    assert forall a :: Settled(m, queued, a) ==> a != b;
    forall j | 0 <= j < k + 1
      ensures Relaxed(m, queued, graph', next, current, moves[j])
    {
      if j < k {
        assert Relaxed(m, queued, graph, next, current, moves[j]);
      }
    }
  }

  /** A move to a state that is not queued, or that already costs less, is
      left alone. */
  lemma RelaxSkip(m: Maze, next: Node, current: nat, queue: seq<Node>, queued: seq<bool>,
                  graph: seq<Option<PathElement>>, walks: map<Node, seq<Node>>, k: nat)
    requires Relaxing(m, next, current, queue, queued, graph, walks, k) && k < |Moves(m, next)|
    requires var mv := Moves(m, next)[k];
      !At(m, queued, mv.0) || (Dist(m, graph, mv.0).Some? && Dist(m, graph, mv.0).value < current + mv.1)
    ensures Relaxing(m, next, current, queue, queued, graph, walks, k + 1)
  {
  }

  /** Giving the queued state `b` reached by move `k` of `next` the cost
      `current` plus the move, with `next` as its only predecessor, when it
      had no cost or a larger one, keeps the routes, the settled states and
      the records. */
  lemma RelaxReplace(m: Maze, next: Node, current: nat, queue: seq<Node>, queued: seq<bool>,
                     graph: seq<Option<PathElement>>, walks: map<Node, seq<Node>>, k: nat)
    requires Relaxing(m, next, current, queue, queued, graph, walks, k) && k < |Moves(m, next)|
    requires OnMaze(m, Moves(m, next)[k].0.position) && At(m, queued, Moves(m, next)[k].0)
    requires Dist(m, graph, Moves(m, next)[k].0).None? ||
             current + Moves(m, next)[k].1 < Dist(m, graph, Moves(m, next)[k].0).value
    ensures var mv := Moves(m, next)[k];
      Relaxing(m, next, current, queue, queued, Put(m, graph, mv.0, Some(Element(current + mv.1, [next]))),
               walks[mv.0 := walks[next] + [mv.0]], k + 1)
  {
    var b, w := Moves(m, next)[k].0, Moves(m, next)[k].1;
    var graph' := Put(m, graph, b, Some(Element(current + w, [next])));
    var walks' := walks[b := walks[next] + [b]];
    ReplaceTracked(m, next, current, w, graph, walks, b);
    ReplaceRerecords(m, next, current, w, queued, graph, b);
    Rerecorded(m, next, current, queue, queued, graph, walks, k, graph', walks');
  }

  lemma ReplaceTracked(m: Maze, next: Node, current: nat, w: nat,
                       graph: seq<Option<PathElement>>, walks: map<Node, seq<Node>>, b: Node)
    requires Sized(m) && |graph| == Slots(m) && Tracked(m, graph, walks)
    requires Dist(m, graph, next) == Some(current) && Edge(m, next, b) && w == Weight(next, b) && OnMaze(m, b.position)
    ensures Tracked(m, Put(m, graph, b, Some(Element(current + w, [next]))), walks[b := walks[next] + [b]])
  {
    Updated(m, graph, b, Element(current + w, [next]));
    RouteExtend(m, walks[next], next, b);
  }

  lemma ReplaceRerecords(m: Maze, next: Node, current: nat, w: nat, queued: seq<bool>,
                         graph: seq<Option<PathElement>>, b: Node)
    requires Sized(m) && |queued| == |graph| == Slots(m)
    requires Settled(m, queued, next) && Dist(m, graph, next) == Some(current)
    requires Edge(m, next, b) && w == Weight(next, b) && Open(m, b) && At(m, queued, b)
    requires Dist(m, graph, b).None? || current + w < Dist(m, graph, b).value
    ensures Rerecords(m, next, current, w, queued, graph, Put(m, graph, b, Some(Element(current + w, [next]))), b)
  {
    Updated(m, graph, b, Element(current + w, [next]));
    AtPut(m, graph, b, Some(Element(current + w, [next])));
  }

  /** A queued state `b` reached by move `k` of `next` at exactly its cost
      is recorded (not the origin, which costs nothing), and gains `next` as
      one more predecessor. */
  lemma RelaxTie(m: Maze, next: Node, current: nat, queue: seq<Node>, queued: seq<bool>,
                 graph: seq<Option<PathElement>>, walks: map<Node, seq<Node>>, k: nat)
    requires Relaxing(m, next, current, queue, queued, graph, walks, k) && k < |Moves(m, next)|
    requires OnMaze(m, Moves(m, next)[k].0.position) && At(m, queued, Moves(m, next)[k].0)
    requires Dist(m, graph, Moves(m, next)[k].0) == Some(current + Moves(m, next)[k].1)
    ensures var b := Moves(m, next)[k].0;
      At(m, graph, b).Some? && At(m, graph, b).value.Element? &&
      var e := At(m, graph, b).value;
      Relaxing(m, next, current, queue, queued, Put(m, graph, b, Some(Element(e.distance, e.previous + [next]))),
               walks, k + 1)
  {
    var b, w := Moves(m, next)[k].0, Moves(m, next)[k].1;
    var e := At(m, graph, b).value;
    assert e.Element?;
    var graph' := Put(m, graph, b, Some(Element(e.distance, e.previous + [next])));
    TieRerecords(m, next, current, w, queued, graph, walks, b);
    Rerecorded(m, next, current, queue, queued, graph, walks, k, graph', walks);
  }

  lemma TieRerecords(m: Maze, next: Node, current: nat, w: nat, queued: seq<bool>,
                     graph: seq<Option<PathElement>>, walks: map<Node, seq<Node>>, b: Node)
    requires Sized(m) && |queued| == |graph| == Slots(m) && Tracked(m, graph, walks)
    requires Settled(m, queued, next) && Dist(m, graph, next) == Some(current)
    requires Edge(m, next, b) && w == Weight(next, b) && Open(m, b) && At(m, queued, b)
    requires Dist(m, graph, b) == Some(current + w) && At(m, graph, b).Some? && At(m, graph, b).value.Element?
    ensures var e := At(m, graph, b).value;
      var graph' := Put(m, graph, b, Some(Element(e.distance, e.previous + [next])));
      Rerecords(m, next, current, w, queued, graph, graph', b) && Tracked(m, graph', walks)
  {
    var e := At(m, graph, b).value;
    Updated(m, graph, b, Element(e.distance, e.previous + [next]));
    AtPut(m, graph, b, Some(Element(e.distance, e.previous + [next])));
  }

  /** After all its moves, `next` has bounded the states one move on too. */
  lemma RelaxDone(m: Maze, next: Node, current: nat, queue: seq<Node>, queued: seq<bool>,
                  graph: seq<Option<PathElement>>, walks: map<Node, seq<Node>>)
    requires Sized(m) && Relaxing(m, next, current, queue, queued, graph, walks, |Moves(m, next)|)
    ensures Searching(m, queue, queued, graph, walks)
  {
    var moves := Moves(m, next);
    forall b | Edge(m, next, b) && Open(m, b) && At(m, queued, b)
      ensures Dist(m, graph, b).Some? && Dist(m, graph, b).value <= current + Weight(next, b) &&
              (Dist(m, graph, b).value == current + Weight(next, b) ==> next in Prev(m, graph, b))
    {
      MovesComplete(m, next, b);
      var j :| 0 <= j < |moves| && moves[j].0 == b;
      assert Relaxed(m, queued, graph, next, current, moves[j]);
    }
    assert Bounded(m, queued, graph, next);
  }

  /** The `neighbors` call of the main loop: for each move out of `next`, a
      queued state that had no cost or a larger one takes `current` plus
      the move with `next` as its only predecessor; one that costs exactly
      that adds `next` to its predecessors; any other is left alone. */
  method Relax(m: Maze, next: Node, current: nat, queue: seq<Node>, queued: seq<bool>,
               graph: seq<Option<PathElement>>, ghost walks: map<Node, seq<Node>>)
    returns (graph': seq<Option<PathElement>>, ghost walks': map<Node, seq<Node>>)
    requires Relaxing(m, next, current, queue, queued, graph, walks, 0)
    ensures Searching(m, queue, queued, graph', walks')
  {
    graph', walks' := graph, walks;
    var moves := Moves(m, next);
    for k := 0 to |moves|
      invariant Relaxing(m, next, current, queue, queued, graph', walks', k)
    {
      var neighbor, delta := moves[k].0, moves[k].1;
      EdgeOpen(m, next, neighbor);
      NodeIndexBounds(m, neighbor);
      var index := NodeIndex(m, neighbor);
      if queued[index] {
        var existing := Effective(graph'[index]);
        var proposed := current + delta;
        if existing.Some? && proposed == existing.value {
          RelaxTie(m, next, current, queue, queued, graph', walks', k);
          match graph'[index] {
            case Some(Element(distance, previous)) =>
              graph' := Put(m, graph', neighbor, Some(Element(distance, previous + [next])));
          }
        } else if existing.None? || proposed < existing.value {
          RelaxReplace(m, next, current, queue, queued, graph', walks', k);
          graph' := Put(m, graph', neighbor, Some(Element(proposed, [next])));
          walks' := walks'[neighbor := walks'[next] + [neighbor]];
        } else {
          RelaxSkip(m, next, current, queue, queued, graph', walks', k);
        }
      } else {
        RelaxSkip(m, next, current, queue, queued, graph', walks', k);
      }
    }
    RelaxDone(m, next, current, queue, queued, graph', walks');
  }

  /** One round of the main loop once `queue[i]`, the state `max_by` picks,
      is known to have a cost: take it off the queue and relax its moves. */
  method Visit(m: Maze, queue: seq<Node>, queued: seq<bool>,
               graph: seq<Option<PathElement>>, ghost walks: map<Node, seq<Node>>, i: nat)
    returns (queue': seq<Node>, queued': seq<bool>, graph': seq<Option<PathElement>>,
             ghost walks': map<Node, seq<Node>>)
    requires Searching(m, queue, queued, graph, walks) && i < |queue|
    requires i == Pick(Keys(m, graph, queue)) && Dist(m, graph, queue[i]).Some?
    ensures Searching(m, queue', queued', graph', walks') && |queue'| < |queue|
  {
    var next := queue[i];
    Taken(m, queue, queued, graph, walks, i);
    queue' := SwapRemove(queue, i);
    queued' := Put(m, queued, next, false);
    var current := Dist(m, graph, next).value;
    graph', walks' := Relax(m, next, current, queue', queued', graph, walks);
  }

  /** `graph` holds, for every open state, the least cost of reaching it
      from the origin, and nothing for any other state. */
  ghost predicate Distances(m: Maze, graph: seq<Option<PathElement>>)
    requires Valid(m)
  {
    |graph| == Slots(m) &&
    (forall n {:trigger Dist(m, graph, n)} :: Open(m, n) ==> Dist(m, graph, n).Some? && Shortest(m, n, Dist(m, graph, n).value)) &&
    (forall n :: Dist(m, graph, n).Some? ==> Open(m, n))
  }

  /** The predecessors recorded for a state are exactly the states one move
      before it whose least cost plus the move is its least cost. */
  ghost predicate Predecessors(m: Maze, graph: seq<Option<PathElement>>)
    requires Valid(m) && |graph| == Slots(m)
  {
    forall a, b :: a in Prev(m, graph, b) <==> TightMove(m, graph, a, b)
  }

  /** A move between open states whose recorded costs differ by its cost. */
  predicate TightMove(m: Maze, graph: seq<Option<PathElement>>, a: Node, b: Node)
    requires Sized(m) && |graph| == Slots(m)
  {
    Open(m, a) && Open(m, b) && Edge(m, a, b) && Dist(m, graph, a).Some? && Dist(m, graph, b).Some? &&
    Dist(m, graph, a).value + Weight(a, b) == Dist(m, graph, b).value
  }

  /** What a finished search leaves: every open state recorded with its
      least cost, the recorded previous states exactly the moves at those
      costs, and the start entry on the start state alone. */
  ghost predicate Searched(m: Maze, graph: seq<Option<PathElement>>)
    requires Valid(m)
  {
    Distances(m, graph) && Predecessors(m, graph) && Seeded(m, graph)
  }

  /** Once the queue is empty every open state is settled with its least
      cost, and the records hold exactly the moves at those costs. */
  lemma SearchDone(m: Maze, queued: seq<bool>, graph: seq<Option<PathElement>>, walks: map<Node, seq<Node>>)
    requires Searching(m, [], queued, graph, walks)
    ensures Searched(m, graph) && AllReachable(m)
  {
    AllSettled(m, queued, graph, walks);
    DoneDistances(m, queued, graph, walks);
    DonePredecessors(m, queued, graph, walks);
  }

  lemma AllSettled(m: Maze, queued: seq<bool>, graph: seq<Option<PathElement>>, walks: map<Node, seq<Node>>)
    requires Searching(m, [], queued, graph, walks)
    ensures forall n :: Open(m, n) ==> Settled(m, queued, n)
  {
  }

  lemma DoneDistances(m: Maze, queued: seq<bool>, graph: seq<Option<PathElement>>, walks: map<Node, seq<Node>>)
    requires Searching(m, [], queued, graph, walks)
    requires forall n :: Open(m, n) ==> Settled(m, queued, n)
    ensures Distances(m, graph) && AllReachable(m)
  {
    forall n | Open(m, n)
      ensures Dist(m, graph, n).Some? && Shortest(m, n, Dist(m, graph, n).value)
    {
      assert Exact(m, graph, n);
      assert Route(m, walks[n], n);
    }
    forall n | Open(m, n)
      ensures Reachable(m, n)
    {
      assert Exact(m, graph, n);
      assert Route(m, walks[n], n);
    }
  }

  lemma DonePredecessors(m: Maze, queued: seq<bool>, graph: seq<Option<PathElement>>, walks: map<Node, seq<Node>>)
    requires Searching(m, [], queued, graph, walks)
    requires forall n :: Open(m, n) ==> Settled(m, queued, n)
    ensures Predecessors(m, graph)
  {
    forall a, b
      ensures a in Prev(m, graph, b) <==> TightMove(m, graph, a, b)
    {
      if Open(m, a) && Open(m, b) {
        assert Settled(m, queued, a) && Settled(m, queued, b);
      }
    }
  }

  /** The search of `count_all_tiles_on_shortest_path`: all open states
      queued, the origin at cost 0, and the queued state of least cost
      settled and relaxed until the queue is empty. It fails exactly when
      some open state cannot be reached from the origin; otherwise every
      open state holds its least cost, and its predecessors are exactly
      the states one move before it on some cheapest route. */
  /** The set-up loop leaves the search invariant with only the start state
      reached. */
  method SetUp(m: Maze) returns (queue: seq<Node>, queued: seq<bool>, graph: seq<Option<PathElement>>,
                                 ghost walks: map<Node, seq<Node>>)
    requires Valid(m)
    ensures Searching(m, queue, queued, graph, walks)
  {
    queue, queued, graph := Enqueue(m);
    walks := map[Origin(m) := [Origin(m)]];
    SetUpDone(m, queue, queued, graph);
  }

  /** One round of the search loop: pick the cheapest queued state and
      settle it, or stop when it has no cost. */
  method Round(m: Maze, queue: seq<Node>, queued: seq<bool>,
              graph: seq<Option<PathElement>>, ghost walks: map<Node, seq<Node>>)
    returns (stuck: bool, queue': seq<Node>, queued': seq<bool>, graph': seq<Option<PathElement>>,
             ghost walks': map<Node, seq<Node>>)
    requires Searching(m, queue, queued, graph, walks) && queue != []
    ensures stuck ==> !AllReachable(m)
    ensures !stuck ==> Searching(m, queue', queued', graph', walks') && |queue'| < |queue|
  {
    var keys := Keys(m, graph, queue);
    var i := Pick(keys);
    if keys[i].None? {
      Stuck(m, queue, queued, graph, walks);
      return true, queue, queued, graph, walks;
    }
    stuck := false;
    queue', queued', graph', walks' := Visit(m, queue, queued, graph, walks, i);
  }

  method Search(m: Maze) returns (r: Result<seq<Option<PathElement>>>)
    requires Valid(m)
    ensures r.Ok? <==> AllReachable(m)
    ensures r.Ok? ==> Searched(m, r.value)
    ensures r.Err? ==>
      r.msg == NoDistance
  {
    var queue, queued, graph, walks := SetUp(m);
    while queue != []
      invariant Searching(m, queue, queued, graph, walks)
      decreases |queue|
    {
      var stuck;
      stuck, queue, queued, graph, walks := Round(m, queue, queued, graph, walks);
      if stuck {
        return Err(NoDistance);
      }
    }
    SearchDone(m, queued, graph, walks);
    return Ok(graph);
  }

  // ---------------------------------------------------------------- cheapest routes

  /** `path` runs from the origin to some state on the goal tile. */
  ghost predicate Finish(m: Maze, path: seq<Node>)
    requires Sized(m)
  {
    |path| > 0 && path[|path| - 1].position == m.goal && Route(m, path, path[|path| - 1])
  }

  /** ... and no route to the goal tile costs less. */
  ghost predicate Cheapest(m: Maze, path: seq<Node>)
    requires Sized(m)
  {
    Finish(m, path) && forall q :: Finish(m, q) ==> Cost(path) <= Cost(q)
  }

  ghost predicate OnCheapest(m: Maze, p: Point)
    requires Sized(m)
  {
    exists path: seq<Node>, i :: Cheapest(m, path) && 0 <= i < |path| && path[i].position == p
  }

  /** The tiles that lie on at least one cheapest route: what the puzzle
      counts. */
  ghost function CheapestTiles(m: Maze): set<Point>
    requires Sized(m)
  {
    set x: int, y: int | 0 <= x < m.width && 0 <= y < m.height && OnCheapest(m, Point(x, y)) :: Point(x, y)
  }

  // ---------------------------------------------------------------- the goal states

  /** The four states on the goal tile, in the order the source lists them. */
  function GoalStates(m: Maze): seq<Node>
  {
    [Node(m.goal, Left), Node(m.goal, Right), Node(m.goal, Up), Node(m.goal, Down)]
  }

  lemma GoalStateAt(m: Maze, d: Direction)
    ensures Rank(d) < 4 && GoalStates(m)[Rank(d)] == Node(m.goal, d)
  {
  }

  /** `possible_goal_nodes`: the cost recorded for each goal state, a state
      not reached counting as 0. */
  function GoalCosts(m: Maze, graph: seq<Option<PathElement>>): (r: seq<nat>)
    requires |graph| == Slots(m)
    ensures |r| == 4
  {
    seq(4, i requires 0 <= i < 4 => Track.OrZero(Dist(m, graph, GoalStates(m)[i])))
  }

  /** `min()`: the least element of a non-empty sequence. */
  function Least(s: seq<nat>): (r: nat)
    requires |s| > 0
    ensures r in s && forall i :: 0 <= i < |s| ==> r <= s[i]
  {
    if |s| == 1 then s[0]
    else
      var rest := Least(s[1..]);
      if s[0] <= rest then s[0] else rest
  }

  /** The `filter_map` over the goal states: those whose cost is `least`,
      in order. */
  function Tied(states: seq<Node>, costs: seq<nat>, least: nat): seq<Node>
    requires |states| == |costs|
  {
    if states == [] then []
    else
      Tied(states[..|states| - 1], costs[..|costs| - 1], least) +
      (if costs[|costs| - 1] == least then [states[|states| - 1]] else [])
  }

  lemma {:induction false} TiedMembers(states: seq<Node>, costs: seq<nat>, least: nat)
    requires |states| == |costs|
    ensures forall n :: n in Tied(states, costs, least) <==>
      exists i :: 0 <= i < |states| && states[i] == n && costs[i] == least
  {
    if states != [] {
      var k := |states| - 1;
      TiedMembers(states[..k], costs[..k], least);
      var rest := Tied(states[..k], costs[..k], least);
      assert Tied(states, costs, least) == rest + (if costs[k] == least then [states[k]] else []);
      forall n
        ensures n in Tied(states, costs, least) <==>
          exists i :: 0 <= i < |states| && states[i] == n && costs[i] == least
      {
        if n in rest {
          var i :| 0 <= i < k && states[..k][i] == n && costs[..k][i] == least;
          assert states[i] == n && costs[i] == least;
        } else if n in Tied(states, costs, least) {
          assert states[k] == n && costs[k] == least;
        }
        if exists i :: 0 <= i < |states| && states[i] == n && costs[i] == least {
          var i :| 0 <= i < |states| && states[i] == n && costs[i] == least;
          if i < k {
            assert states[..k][i] == n && costs[..k][i] == least;
          }
        }
      }
    }
  }

  /** The goal states the walk back starts from. */
  function Targets(m: Maze, graph: seq<Option<PathElement>>): seq<Node>
    requires |graph| == Slots(m)
  {
    Tied(GoalStates(m), GoalCosts(m, graph), Least(GoalCosts(m, graph)))
  }

  /** The starting states are exactly the goal states of least cost. */
  lemma TargetsExact(m: Maze, graph: seq<Option<PathElement>>, n: Node)
    requires |graph| == Slots(m)
    ensures n in Targets(m, graph) <==>
      n.position == m.goal && Track.OrZero(Dist(m, graph, n)) == Least(GoalCosts(m, graph))
  {
    TiedMembers(GoalStates(m), GoalCosts(m, graph), Least(GoalCosts(m, graph)));
    GoalStateAt(m, n.direction);
  }

  lemma TargetsOnGoal(m: Maze, graph: seq<Option<PathElement>>)
    requires Valid(m) && |graph| == Slots(m)
    ensures forall u :: u in Targets(m, graph) ==> u.position == m.goal && OnMaze(m, u.position)
  {
    TiedMembers(GoalStates(m), GoalCosts(m, graph), Least(GoalCosts(m, graph)));
  }

  /** Every route to the goal tile costs at least the least goal cost, and
      some route costs exactly that. */
  lemma GoalFloor(m: Maze, graph: seq<Option<PathElement>>, q: seq<Node>)
    requires Valid(m) && Distances(m, graph) && Finish(m, q)
    ensures Cost(q) >= Least(GoalCosts(m, graph))
  {
    var end := q[|q| - 1];
    var costs := GoalCosts(m, graph);
    GoalStateAt(m, end.direction);
    assert Open(m, end);
    assert Reaches(m, end, Cost(q));
    assert Dist(m, graph, end).Some? && Shortest(m, end, Dist(m, graph, end).value);
    assert costs[Rank(end.direction)] == Dist(m, graph, end).value;
    assert Least(costs) <= costs[Rank(end.direction)];
  }

  lemma GoalReached(m: Maze, graph: seq<Option<PathElement>>)
    requires Valid(m) && Distances(m, graph)
    ensures exists path :: Finish(m, path) && Cost(path) == Least(GoalCosts(m, graph))
  {
    var costs := GoalCosts(m, graph);
    var i :| 0 <= i < 4 && costs[i] == Least(costs);
    var g := GoalStates(m)[i];
    assert g.position == m.goal;
    assert Open(m, g);
    assert Dist(m, graph, g).Some? && Shortest(m, g, Dist(m, graph, g).value);
    assert costs[i] == Dist(m, graph, g).value;
    var path :| Route(m, path, g) && Cost(path) == Dist(m, graph, g).value;
    assert Finish(m, path);
  }

  /** A route to the goal tile is a cheapest one exactly when it costs the
      least of the four goal costs. */
  lemma CheapestCost(m: Maze, graph: seq<Option<PathElement>>, path: seq<Node>)
    requires Valid(m) && Distances(m, graph) && Finish(m, path)
    ensures Cheapest(m, path) <==> Cost(path) == Least(GoalCosts(m, graph))
  {
    GoalFloor(m, graph, path);
    GoalReached(m, graph);
    forall q | Finish(m, q)
      ensures Cost(q) >= Least(GoalCosts(m, graph))
    {
      GoalFloor(m, graph, q);
    }
  }

  // ---------------------------------------------------------------- tracing back

  /** `c` follows the records back: each state is recorded as leading to the
      one before it in `c`. */
  ghost predicate Chain(m: Maze, graph: seq<Option<PathElement>>, c: seq<Node>)
    requires |graph| == Slots(m)
  {
    |c| > 0 && forall i :: 0 <= i < |c| - 1 ==> c[i + 1] in Prev(m, graph, c[i])
  }

  ghost predicate Behind(m: Maze, graph: seq<Option<PathElement>>, u: Node, v: Node)
    requires |graph| == Slots(m)
  {
    exists c :: Chain(m, graph, c) && c[0] == u && c[|c| - 1] == v
  }

  /** `v` is found by following the records back from one of `init`. */
  ghost predicate Traced(m: Maze, graph: seq<Option<PathElement>>, init: seq<Node>, v: Node)
    requires |graph| == Slots(m)
  {
    exists u :: u in init && Behind(m, graph, u, v)
  }

  lemma BehindSelf(m: Maze, graph: seq<Option<PathElement>>, u: Node)
    requires |graph| == Slots(m)
    ensures Behind(m, graph, u, u)
  {
    assert Chain(m, graph, [u]);
  }

  /** A trace back from `u` is `u` itself or goes on from one of its
      recorded predecessors. */
  lemma BehindStep(m: Maze, graph: seq<Option<PathElement>>, u: Node, v: Node)
    requires |graph| == Slots(m) && Behind(m, graph, u, v)
    ensures v == u || exists p :: p in Prev(m, graph, u) && Behind(m, graph, p, v)
  {
    var c :| Chain(m, graph, c) && c[0] == u && c[|c| - 1] == v;
    if |c| > 1 {
      assert Chain(m, graph, c[1..]);
      assert c[1] in Prev(m, graph, u);
    }
  }

  lemma TracedExtend(m: Maze, graph: seq<Option<PathElement>>, init: seq<Node>, u: Node, p: Node)
    requires |graph| == Slots(m) && Traced(m, graph, init, u) && p in Prev(m, graph, u)
    ensures Traced(m, graph, init, p)
  {
    var s :| s in init && Behind(m, graph, s, u);
    BehindExtend(m, graph, s, u, p);
  }

  /** A trace back can go on to any recorded predecessor of its end. */
  lemma BehindExtend(m: Maze, graph: seq<Option<PathElement>>, s: Node, u: Node, p: Node)
    requires |graph| == Slots(m) && Behind(m, graph, s, u) && p in Prev(m, graph, u)
    ensures Behind(m, graph, s, p)
  {
    var c :| Chain(m, graph, c) && c[0] == s && c[|c| - 1] == u;
    var c' := c + [p];
    forall i | 0 <= i < |c'| - 1
      ensures c'[i + 1] in Prev(m, graph, c'[i])
    {
      if i < |c| - 1 {
        assert c'[i] == c[i] && c'[i + 1] == c[i + 1];
      } else {
        assert c'[i] == u && c'[i + 1] == p;
      }
    }
    assert c'[0] == s && c'[|c'| - 1] == p;
    assert Chain(m, graph, c');
  }

  /** Everything traced back from open states is open. */
  lemma TracedOpen(m: Maze, graph: seq<Option<PathElement>>, init: seq<Node>, v: Node)
    requires Valid(m) && |graph| == Slots(m) && Predecessors(m, graph)
    requires forall u :: u in init ==> Open(m, u)
    requires Traced(m, graph, init, v)
    ensures Open(m, v)
  {
    var s :| s in init && Behind(m, graph, s, v);
    var c :| Chain(m, graph, c) && c[0] == s && c[|c| - 1] == v;
    if |c| > 1 {
      assert v in Prev(m, graph, c[|c| - 2]);
      Recorded(m, graph, v, c[|c| - 2]);
    }
  }

  /** With strictly cheaper predecessors, everything traced back from
      states on the maze is on the maze. */
  lemma TracedOnMaze(m: Maze, graph: seq<Option<PathElement>>, init: seq<Node>, v: Node)
    requires |graph| == Slots(m) && Descending(m, graph)
    requires forall u :: u in init ==> OnMaze(m, u.position)
    requires Traced(m, graph, init, v)
    ensures OnMaze(m, v.position)
  {
    var s :| s in init && Behind(m, graph, s, v);
    var c :| Chain(m, graph, c) && c[0] == s && c[|c| - 1] == v;
    if |c| > 1 {
      assert v in Prev(m, graph, c[|c| - 2]);
      assert Cheaper(m, graph, v, c[|c| - 2]);
    }
  }

  /** What a record of `a` leading to `b` says, and when there is one. */
  lemma Recorded(m: Maze, graph: seq<Option<PathElement>>, a: Node, b: Node)
    requires Valid(m) && |graph| == Slots(m) && Predecessors(m, graph) && a in Prev(m, graph, b)
    ensures Open(m, a) && Open(m, b) && Edge(m, a, b)
    ensures Dist(m, graph, a).Some? && Dist(m, graph, b).Some?
    ensures Dist(m, graph, a).value + Weight(a, b) == Dist(m, graph, b).value
  {
  }

  lemma Records(m: Maze, graph: seq<Option<PathElement>>, a: Node, b: Node)
    requires Valid(m) && |graph| == Slots(m) && Predecessors(m, graph)
    requires Open(m, a) && Open(m, b) && Edge(m, a, b)
    requires Dist(m, graph, a).Some? && Dist(m, graph, b).Some?
    requires Dist(m, graph, a).value + Weight(a, b) == Dist(m, graph, b).value
    ensures a in Prev(m, graph, b)
  {
  }

  /** Recorded predecessors are strictly cheaper, so no trace back goes
      round in a circle. */
  ghost predicate Descending(m: Maze, graph: seq<Option<PathElement>>)
    requires |graph| == Slots(m)
  {
    forall a, b :: a in Prev(m, graph, b) ==> Cheaper(m, graph, a, b)
  }

  predicate Cheaper(m: Maze, graph: seq<Option<PathElement>>, a: Node, b: Node)
    requires |graph| == Slots(m)
  {
    Dist(m, graph, a).Some? && Dist(m, graph, b).Some? && Dist(m, graph, a).value < Dist(m, graph, b).value
  }

  lemma PredecessorsDescend(m: Maze, graph: seq<Option<PathElement>>)
    requires Valid(m) && |graph| == Slots(m) && Predecessors(m, graph)
    ensures Descending(m, graph)
  {
  }

  /** The number of traces back from `n`: how often the walk below can
      visit states after popping `n`, plus one. */
  ghost function Paths(m: Maze, graph: seq<Option<PathElement>>, n: Node): nat
    requires |graph| == Slots(m) && Descending(m, graph)
    decreases Track.OrZero(Dist(m, graph, n)), 1
  {
    1 + PathsOf(m, graph, Prev(m, graph, n), Track.OrZero(Dist(m, graph, n)))
  }

  ghost function PathsOf(m: Maze, graph: seq<Option<PathElement>>, s: seq<Node>, d: nat): nat
    requires |graph| == Slots(m) && Descending(m, graph)
    requires forall a :: a in s ==> Track.OrZero(Dist(m, graph, a)) < d
    decreases d, 0, |s|
  {
    if s == [] then 0 else PathsOf(m, graph, s[..|s| - 1], d) + Paths(m, graph, s[|s| - 1])
  }

  /** The work left for the walk with `s` queued. */
  ghost function Load(m: Maze, graph: seq<Option<PathElement>>, s: seq<Node>): nat
    requires |graph| == Slots(m) && Descending(m, graph)
  {
    if s == [] then 0 else Load(m, graph, s[..|s| - 1]) + Paths(m, graph, s[|s| - 1])
  }

  lemma {:induction false} LoadOf(m: Maze, graph: seq<Option<PathElement>>, s: seq<Node>, d: nat)
    requires |graph| == Slots(m) && Descending(m, graph)
    requires forall a :: a in s ==> Track.OrZero(Dist(m, graph, a)) < d
    ensures Load(m, graph, s) == PathsOf(m, graph, s, d)
  {
    if s != [] {
      LoadOf(m, graph, s[..|s| - 1], d);
    }
  }

  lemma {:induction false} LoadAppend(m: Maze, graph: seq<Option<PathElement>>, s: seq<Node>, t: seq<Node>)
    requires |graph| == Slots(m) && Descending(m, graph)
    ensures Load(m, graph, s + t) == Load(m, graph, s) + Load(m, graph, t)
  {
    if t == [] {
      assert s + t == s;
    } else {
      assert (s + t)[..|s + t| - 1] == s + t[..|t| - 1];
      LoadAppend(m, graph, s, t[..|t| - 1]);
    }
  }

  /** Popping the last state and queueing its predecessors leaves one unit
      of work less. */
  lemma WalkLoad(m: Maze, graph: seq<Option<PathElement>>, queue: seq<Node>)
    requires |graph| == Slots(m) && Descending(m, graph) && queue != []
    ensures var u := queue[|queue| - 1];
      Load(m, graph, queue[..|queue| - 1] + Prev(m, graph, u)) < Load(m, graph, queue)
  {
    var u := queue[|queue| - 1];
    LoadAppend(m, graph, queue[..|queue| - 1], Prev(m, graph, u));
    LoadOf(m, graph, Prev(m, graph, u), Track.OrZero(Dist(m, graph, u)));
  }

  /** The invariant of the walk: everything queued or done is traced back
      from `init`, the tiles collected are the start and the tiles of the
      states done, and whatever is traced back is done or behind a queued
      state. */
  ghost predicate Walking(m: Maze, graph: seq<Option<PathElement>>, init: seq<Node>,
                          queue: seq<Node>, done: set<Node>, results: set<Point>)
    requires |graph| == Slots(m)
  {
    AllTraced(m, graph, init, queue, done) &&
    results == {m.start} + Tiles(done) &&
    Covered(m, graph, init, queue, done)
  }

  ghost predicate AllTraced(m: Maze, graph: seq<Option<PathElement>>, init: seq<Node>,
                            queue: seq<Node>, done: set<Node>)
    requires |graph| == Slots(m)
  {
    (forall u :: u in queue ==> Traced(m, graph, init, u)) &&
    (forall v :: v in done ==> Traced(m, graph, init, v))
  }

  ghost function Tiles(done: set<Node>): set<Point>
  {
    set v | v in done :: v.position
  }

  ghost predicate Covered(m: Maze, graph: seq<Option<PathElement>>, init: seq<Node>,
                          queue: seq<Node>, done: set<Node>)
    requires |graph| == Slots(m)
  {
    forall v :: Traced(m, graph, init, v) ==> v in done || exists u :: u in queue && Behind(m, graph, u, v)
  }

  lemma WalkBegins(m: Maze, graph: seq<Option<PathElement>>, init: seq<Node>)
    requires |graph| == Slots(m)
    ensures Walking(m, graph, init, init, {}, {m.start})
  {
    forall u | u in init
      ensures Traced(m, graph, init, u)
    {
      BehindSelf(m, graph, u);
    }
    assert Tiles({}) == {};
  }

  lemma WalkStep(m: Maze, graph: seq<Option<PathElement>>, init: seq<Node>,
                 queue: seq<Node>, done: set<Node>, results: set<Point>)
    requires |graph| == Slots(m) && Walking(m, graph, init, queue, done, results) && queue != []
    ensures var u := queue[|queue| - 1];
      Walking(m, graph, init, queue[..|queue| - 1] + Prev(m, graph, u), done + {u}, results + {u.position})
  {
    var u := queue[|queue| - 1];
    StepTraced(m, graph, init, queue, done);
    StepCovered(m, graph, init, queue, done);
    assert Tiles(done + {u}) == Tiles(done) + {u.position};
  }

  lemma StepTraced(m: Maze, graph: seq<Option<PathElement>>, init: seq<Node>, queue: seq<Node>, done: set<Node>)
    requires |graph| == Slots(m) && AllTraced(m, graph, init, queue, done) && queue != []
    ensures var u := queue[|queue| - 1];
      AllTraced(m, graph, init, queue[..|queue| - 1] + Prev(m, graph, u), done + {u})
  {
    var u := queue[|queue| - 1];
    var queue' := queue[..|queue| - 1] + Prev(m, graph, u);
    assert Traced(m, graph, init, u);
    forall x | x in queue'
      ensures Traced(m, graph, init, x)
    {
      if x !in queue[..|queue| - 1] {
        TracedExtend(m, graph, init, u, x);
      }
    }
  }

  lemma StepCovered(m: Maze, graph: seq<Option<PathElement>>, init: seq<Node>, queue: seq<Node>, done: set<Node>)
    requires |graph| == Slots(m) && Covered(m, graph, init, queue, done) && queue != []
    ensures var u := queue[|queue| - 1];
      Covered(m, graph, init, queue[..|queue| - 1] + Prev(m, graph, u), done + {u})
  {
    var u := queue[|queue| - 1];
    var queue' := queue[..|queue| - 1] + Prev(m, graph, u);
    forall v | Traced(m, graph, init, v)
      ensures v in done + {u} || exists q :: q in queue' && Behind(m, graph, q, v)
    {
      if v !in done {
        var q :| q in queue && Behind(m, graph, q, v);
        if q in queue[..|queue| - 1] {
          assert q in queue';
        } else {
          assert q == u;
          BehindStep(m, graph, u, v);
          if v != u {
            var p :| p in Prev(m, graph, u) && Behind(m, graph, p, v);
            assert p in queue';
          }
        }
      }
    }
  }

  lemma WalkEnds(m: Maze, graph: seq<Option<PathElement>>, init: seq<Node>,
                 queue: seq<Node>, done: set<Node>, results: set<Point>)
    requires |graph| == Slots(m) && Walking(m, graph, init, queue, done, results) && queue == []
    ensures forall p :: p in results <==> p == m.start || exists d :: Traced(m, graph, init, Node(p, d))
  {
    forall p | p in results && p != m.start
      ensures exists d :: Traced(m, graph, init, Node(p, d))
    {
      var v :| v in done && v.position == p;
      assert Node(p, v.direction) == v;
    }
    forall p, d | Traced(m, graph, init, Node(p, d))
      ensures p in results
    {
      assert Node(p, d) in done;
      assert Node(p, d).position in Tiles(done);
    }
  }

  lemma PrevEntry(m: Maze, graph: seq<Option<PathElement>>, n: Node)
    requires |graph| == Slots(m) && OnMaze(m, n.position)
    ensures 0 <= NodeIndex(m, n) < |graph|
    ensures var e := graph[NodeIndex(m, n)];
      Prev(m, graph, n) == if e.Some? && e.value.Element? then e.value.previous else []
  {
    NodeIndexBounds(m, n);
  }

  /** The walk back of `count_all_tiles_on_shortest_path`: pop the last
      queued state, collect its tile, queue every state recorded as leading
      to it; the start tile is collected up front. It ends (the records
      never go round in a circle) with the start tile and the tiles of
      exactly the states traced back from `init`. */
  method Walk(m: Maze, graph: seq<Option<PathElement>>, init: seq<Node>) returns (results: set<Point>)
    requires |graph| == Slots(m) && Descending(m, graph)
    requires forall u :: u in init ==> OnMaze(m, u.position)
    ensures forall p :: p in results <==> p == m.start || exists d :: Traced(m, graph, init, Node(p, d))
  {
    var queue := init;
    results := {m.start};
    ghost var done: set<Node> := {};
    WalkBegins(m, graph, init);
    while queue != []
      invariant Walking(m, graph, init, queue, done, results)
      decreases Load(m, graph, queue)
    {
      var node := queue[|queue| - 1];
      ghost var queue' := queue[..|queue| - 1] + Prev(m, graph, node);
      assert Walking(m, graph, init, queue', done + {node}, results + {node.position}) by {
        WalkStep(m, graph, init, queue, done, results);
      }
      assert Load(m, graph, queue') < Load(m, graph, queue) by {
        WalkLoad(m, graph, queue);
      }
      assert OnMaze(m, node.position) by {
        TracedOnMaze(m, graph, init, node);
      }
      queue := queue[..|queue| - 1];
      results := results + {node.position};
      done := done + {node};
      PrevEntry(m, graph, node);
      var previous := match graph[NodeIndex(m, node)]
        case Some(Element(_, previous)) => previous
        case Some(Start) => []
        case None => [];
      assert previous == Prev(m, graph, node);
      queue := queue + previous;
      assert queue == queue';
    }
    WalkEnds(m, graph, init, queue, done, results);
  }

  // ---------------------------------------------------------------- what the walk finds

  lemma Triangle(m: Maze, graph: seq<Option<PathElement>>, a: Node, b: Node)
    requires Valid(m) && Distances(m, graph) && Open(m, a) && Edge(m, a, b)
    ensures Dist(m, graph, a).Some? && Dist(m, graph, b).Some?
    ensures Dist(m, graph, b).value <= Dist(m, graph, a).value + Weight(a, b)
  {
    EdgeOpen(m, a, b);
    assert Dist(m, graph, a).Some? && Shortest(m, a, Dist(m, graph, a).value);
    assert Dist(m, graph, b).Some? && Shortest(m, b, Dist(m, graph, b).value);
    var path :| Route(m, path, a) && Cost(path) == Dist(m, graph, a).value;
    RouteExtend(m, path, a, b);
    assert Reaches(m, b, Cost(path + [b]));
  }

  /** Along a route that costs exactly the least cost of its end, every
      state is at its least cost and every move is recorded. */
  lemma {:induction false} TightBack(m: Maze, graph: seq<Option<PathElement>>, path: seq<Node>, end: Node, j: nat)
    requires Valid(m) && Distances(m, graph) && Predecessors(m, graph)
    requires Route(m, path, end) && Dist(m, graph, end) == Some(Cost(path)) && j < |path|
    ensures Dist(m, graph, path[j]) == Some(Cost(path[..j + 1]))
    ensures j + 1 < |path| ==> path[j] in Prev(m, graph, path[j + 1])
    decreases |path| - j
  {
    if j + 1 == |path| {
      assert path[..j + 1] == path;
    } else {
      var a, b := path[j], path[j + 1];
      TightBack(m, graph, path, end, j + 1);
      CostStep(path, j);
      RoutePrefix(m, path, end, j);
      assert Open(m, a) && Open(m, b) && Edge(m, a, b);
      assert Dist(m, graph, a).Some? && Shortest(m, a, Dist(m, graph, a).value);
      assert Dist(m, graph, a).value <= Cost(path[..j + 1]);
      Triangle(m, graph, a, b);
      assert Dist(m, graph, b).value == Cost(path[..j + 1]) + Weight(a, b);
      assert Dist(m, graph, a).value == Cost(path[..j + 1]);
      Records(m, graph, a, b);
    }
  }

  /** A chain of records back from `c[0]` to a state reached at its least
      cost continues that route, at least cost, to `c[0]`. */
  lemma {:induction false} ChainRoute(m: Maze, graph: seq<Option<PathElement>>, c: seq<Node>, path: seq<Node>)
    requires Valid(m) && |graph| == Slots(m) && Predecessors(m, graph)
    requires Chain(m, graph, c) && Route(m, path, c[|c| - 1]) && Dist(m, graph, c[|c| - 1]) == Some(Cost(path))
    ensures exists q :: Route(m, q, c[0]) && Dist(m, graph, c[0]) == Some(Cost(q)) &&
                        |path| <= |q| && q[|path| - 1] == c[|c| - 1]
    decreases |c|
  {
    if |c| > 1 {
      var c' := c[1..];
      assert Chain(m, graph, c');
      assert c'[|c'| - 1] == c[|c| - 1];
      ChainRoute(m, graph, c', path);
      var q :| Route(m, q, c[1]) && Dist(m, graph, c[1]) == Some(Cost(q)) &&
               |path| <= |q| && q[|path| - 1] == c[|c| - 1];
      assert c[1] in Prev(m, graph, c[0]);
      Recorded(m, graph, c[1], c[0]);
      RouteExtend(m, q, c[1], c[0]);
      var q' := q + [c[0]];
      assert Dist(m, graph, c[0]) == Some(Cost(q'));
      assert q'[|path| - 1] == q[|path| - 1];
      assert Route(m, q', c[0]) && Dist(m, graph, c[0]) == Some(Cost(q')) &&
             |path| <= |q'| && q'[|path| - 1] == c[|c| - 1];
    } else {
      assert Route(m, path, c[0]) && Dist(m, graph, c[0]) == Some(Cost(path)) &&
             |path| <= |path| && path[|path| - 1] == c[|c| - 1];
    }
  }

  /** A route read off the records backwards is a chain. */
  lemma {:induction false} ReversedChain(m: Maze, graph: seq<Option<PathElement>>, path: seq<Node>, i: nat)
    requires |graph| == Slots(m) && i < |path|
    requires forall j :: 0 <= j < |path| - 1 ==> path[j] in Prev(m, graph, path[j + 1])
    ensures Behind(m, graph, path[|path| - 1], path[i])
    decreases |path| - i
  {
    if i + 1 == |path| {
      BehindSelf(m, graph, path[i]);
    } else {
      ReversedChain(m, graph, path, i + 1);
      BehindExtend(m, graph, path[|path| - 1], path[i + 1], path[i]);
    }
  }

  /** Everything traced back from the cheapest goal states lies on a
      cheapest route. */
  lemma TracedCheapest(m: Maze, graph: seq<Option<PathElement>>, v: Node)
    requires Valid(m) && Distances(m, graph) && Predecessors(m, graph)
    requires Traced(m, graph, Targets(m, graph), v)
    ensures exists path, i :: Cheapest(m, path) && 0 <= i < |path| && path[i] == v
  {
    var init := Targets(m, graph);
    TargetsOnGoal(m, graph);
    TracedOpen(m, graph, init, v);
    var s :| s in init && Behind(m, graph, s, v);
    TargetsExact(m, graph, s);
    assert Open(m, s);
    var c :| Chain(m, graph, c) && c[0] == s && c[|c| - 1] == v;
    var path :| Route(m, path, v) && Cost(path) == Dist(m, graph, v).value;
    ChainRoute(m, graph, c, path);
    var q :| Route(m, q, s) && Dist(m, graph, s) == Some(Cost(q)) && |path| <= |q| && q[|path| - 1] == v;
    assert Finish(m, q);
    CheapestCost(m, graph, q);
  }

  /** Every state on a cheapest route is traced back from a cheapest goal
      state. */
  lemma CheapestTraced(m: Maze, graph: seq<Option<PathElement>>, path: seq<Node>, i: nat)
    requires Valid(m) && Distances(m, graph) && Predecessors(m, graph)
    requires Cheapest(m, path) && i < |path|
    ensures Traced(m, graph, Targets(m, graph), path[i])
  {
    var end := path[|path| - 1];
    CheapestEnd(m, graph, path);
    assert forall j :: 0 <= j < |path| - 1 ==> path[j] in Prev(m, graph, path[j + 1]) by {
      forall j | 0 <= j < |path| - 1
        ensures path[j] in Prev(m, graph, path[j + 1])
      {
        TightBack(m, graph, path, end, j);
      }
    }
    ReversedChain(m, graph, path, i);
  }

  /** A cheapest route ends in a goal state the walk starts from, at its
      least cost. */
  lemma CheapestEnd(m: Maze, graph: seq<Option<PathElement>>, path: seq<Node>)
    requires Valid(m) && Distances(m, graph) && Cheapest(m, path)
    ensures path[|path| - 1] in Targets(m, graph) && Dist(m, graph, path[|path| - 1]) == Some(Cost(path))
  {
    var end := path[|path| - 1];
    var costs := GoalCosts(m, graph);
    CheapestCost(m, graph, path);
    GoalStateAt(m, end.direction);
    assert Open(m, end);
    assert Reaches(m, end, Cost(path));
    assert Dist(m, graph, end).Some? && Shortest(m, end, Dist(m, graph, end).value);
    assert costs[Rank(end.direction)] == Dist(m, graph, end).value;
    TargetsExact(m, graph, end);
  }

  /** The tiles the walk collects from the cheapest goal states are exactly
      the tiles on cheapest routes. */
  lemma TilesExact(m: Maze, graph: seq<Option<PathElement>>, results: set<Point>)
    requires Valid(m) && Distances(m, graph) && Predecessors(m, graph)
    requires forall p :: p in results <==> p == m.start || exists d :: Traced(m, graph, Targets(m, graph), Node(p, d))
    ensures results == CheapestTiles(m)
  {
    forall p
      ensures p in results <==> OnMaze(m, p) && OnCheapest(m, p)
    {
      TileFound(m, graph, p);
    }
    SameTiles(m, results);
  }

  lemma TileFound(m: Maze, graph: seq<Option<PathElement>>, p: Point)
    requires Valid(m) && Distances(m, graph) && Predecessors(m, graph)
    ensures (p == m.start || exists d :: Traced(m, graph, Targets(m, graph), Node(p, d))) <==>
            OnMaze(m, p) && OnCheapest(m, p)
  {
    if p == m.start {
      StartTile(m, graph);
    } else if exists d :: Traced(m, graph, Targets(m, graph), Node(p, d)) {
      var d :| Traced(m, graph, Targets(m, graph), Node(p, d));
      TracedTile(m, graph, p, d);
    }
    if OnCheapest(m, p) {
      CheapestTile(m, graph, p);
    }
  }

  lemma SameTiles(m: Maze, results: set<Point>)
    requires Sized(m) && forall p :: p in results <==> OnMaze(m, p) && OnCheapest(m, p)
    ensures results == CheapestTiles(m)
  {
    forall p
      ensures p in results <==> p in CheapestTiles(m)
    {
      assert p == Point(p.x, p.y);
    }
  }

  /** The start lies on every route, so on a cheapest one. */
  lemma StartTile(m: Maze, graph: seq<Option<PathElement>>)
    requires Valid(m) && Distances(m, graph)
    ensures OnMaze(m, m.start) && OnCheapest(m, m.start)
  {
    GoalReached(m, graph);
    var path: seq<Node> :| Finish(m, path) && Cost(path) == Least(GoalCosts(m, graph));
    CheapestCost(m, graph, path);
    assert path[0].position == m.start;
  }

  lemma TracedTile(m: Maze, graph: seq<Option<PathElement>>, p: Point, d: Direction)
    requires Valid(m) && Distances(m, graph) && Predecessors(m, graph)
    requires Traced(m, graph, Targets(m, graph), Node(p, d))
    ensures OnMaze(m, p) && OnCheapest(m, p)
  {
    TracedCheapest(m, graph, Node(p, d));
    var path, i :| Cheapest(m, path) && 0 <= i < |path| && path[i] == Node(p, d);
    assert Open(m, path[i]);
  }

  lemma CheapestTile(m: Maze, graph: seq<Option<PathElement>>, p: Point)
    requires Valid(m) && Distances(m, graph) && Predecessors(m, graph)
    requires OnCheapest(m, p)
    ensures exists d :: Traced(m, graph, Targets(m, graph), Node(p, d))
  {
    var path: seq<Node>, i :| Cheapest(m, path) && 0 <= i < |path| && path[i].position == p;
    CheapestTraced(m, graph, path, i);
    assert path[i] == Node(p, path[i].direction);
  }

  /** `count_all_tiles_on_shortest_path`: the search, then the walk back
      from the goal states of least cost. It fails exactly when some open
      state cannot be reached; otherwise it counts the tiles on cheapest
      routes from the start to the goal. (`min()` over the four goal costs
      always has a value, so the source's "expected a way to reach to goal
      but found none" cannot happen.) */
  method CountTiles(m: Maze) returns (r: Result<nat>)
    requires Valid(m)
    ensures r.Ok? <==> AllReachable(m)
    ensures r.Ok? ==> r.value == |CheapestTiles(m)|
    ensures r.Err? ==>
      r.msg == NoDistance
  {
    var search := Search(m);
    if search.Err? {
      return Err(search.msg);
    }
    var count := CountFrom(m, search.value);
    return Ok(count);
  }

  /** The part after the search: the walk back from the cheapest goal
      states, counting the tiles it collects. */
  method CountFrom(m: Maze, graph: seq<Option<PathElement>>) returns (count: nat)
    requires Valid(m) && Searched(m, graph)
    ensures count == |CheapestTiles(m)|
  {
    var queue := CheapestGoals(m, graph);
    TargetsOnGoal(m, graph);
    PredecessorsDescend(m, graph);
    var results := Walk(m, graph, queue);
    TilesExact(m, graph, results);
    count := |results|;
  }

  /** The goal states of least cost, in order: the queue the walk back
      starts with. */
  method CheapestGoals(m: Maze, graph: seq<Option<PathElement>>) returns (queue: seq<Node>)
    requires |graph| == Slots(m)
    ensures queue == Targets(m, graph)
  {
    var goals := GoalStates(m);
    var costs := GoalCosts(m, graph);
    var least := Least(costs);
    queue := [];
    for i := 0 to 4
      invariant queue == Tied(goals[..i], costs[..i], least)
    {
      assert goals[..i + 1][..i] == goals[..i] && costs[..i + 1][..i] == costs[..i];
      if costs[i] == least {
        queue := queue + [goals[i]];
      }
    }
    assert goals[..4] == goals && costs[..4] == costs;
  }

  /** `do_it`: every line trimmed (blank lines are kept, and make the lines
      uneven), the maze read, and the tiles counted. */
  method Solve(lines: seq<string>) returns (r: Result<nat>)
    ensures var g := ReadMaze(TrimLines(lines));
      g.Err? ==> r == Err(g.msg)
    ensures var g := ReadMaze(TrimLines(lines));
      g.Ok? ==> Valid(g.value) && (r.Ok? <==> AllReachable(g.value)) &&
                (r.Ok? ==> r.value == |CheapestTiles(g.value)|)
  {
    var rows := TrimLines(lines);
    var maze := NewState(rows);
    if maze.Err? {
      return Err(maze.msg);
    }
    ReadMazeOutcome(rows);
    r := CountTiles(maze.value);
  }
}
