/** Restroom redoubt, part two: the robots move as in part one, and after
    every second the largest cluster of occupied cells (touching sideways
    or diagonally) is measured by a flood fill. The search runs until the
    robots are back where they started and reports the earliest second
    with the largest cluster. */
module Day14b {
  import opened Common
  import opened Text
  import opened Grid2D
  import opened Day14a

  /** Two different cells that touch sideways or diagonally. */
  predicate Adjacent(a: Point, b: Point)
  {
    a != b && -1 <= a.x - b.x <= 1 && -1 <= a.y - b.y <= 1
  }

  /** A walk through occupied cells, each step to a touching cell. */
  ghost predicate IsPath(occupied: set<Point>, path: seq<Point>)
  {
    |path| >= 1 &&
    (forall i :: 0 <= i < |path| ==> path[i] in occupied) &&
    (forall i :: 0 <= i < |path| - 1 ==> Adjacent(path[i], path[i + 1]))
  }

  /** `b` can be reached from `a` through occupied cells. */
  ghost predicate Linked(occupied: set<Point>, a: Point, b: Point)
  {
    exists path :: IsPath(occupied, path) && path[0] == a && path[|path| - 1] == b
  }

  /** The cluster of `a`: every occupied cell linked to it. */
  ghost function ClusterOf(occupied: set<Point>, a: Point): set<Point>
  {
    set b | b in occupied && Linked(occupied, a, b)
  }

  lemma LinkedSelf(occupied: set<Point>, a: Point)
    requires a in occupied
    ensures Linked(occupied, a, a)
  {
    assert IsPath(occupied, [a]);
  }

  /** A step to a touching cell extends a link backwards. */
  lemma LinkedPrepend(occupied: set<Point>, a: Point, b: Point, c: Point)
    requires a in occupied && Adjacent(a, b) && Linked(occupied, b, c)
    ensures Linked(occupied, a, c)
  {
    var path :| IsPath(occupied, path) && path[0] == b && path[|path| - 1] == c;
    var longer := [a] + path;
    assert forall i :: 1 <= i < |longer| ==> longer[i] == path[i - 1];
    assert IsPath(occupied, longer);
  }

  /** Links run both ways. */
  lemma LinkedSymmetric(occupied: set<Point>, a: Point, b: Point)
    requires Linked(occupied, a, b)
    ensures Linked(occupied, b, a)
  {
    var path :| IsPath(occupied, path) && path[0] == a && path[|path| - 1] == b;
    var n := |path|;
    var back := seq(n, i requires 0 <= i < n => path[n - 1 - i]);
    forall i | 0 <= i < n - 1 ensures Adjacent(back[i], back[i + 1]) {
      assert Adjacent(path[n - 2 - i], path[n - 1 - i]);
    }
    assert IsPath(occupied, back);
  }

  /** Links chain. */
  lemma LinkedTransitive(occupied: set<Point>, a: Point, b: Point, c: Point)
    requires Linked(occupied, a, b) && Linked(occupied, b, c)
    ensures Linked(occupied, a, c)
  {
    var p1 :| IsPath(occupied, p1) && p1[0] == a && p1[|p1| - 1] == b;
    var p2 :| IsPath(occupied, p2) && p2[0] == b && p2[|p2| - 1] == c;
    var joined := p1 + p2[1..];
    forall i | 0 <= i < |joined| - 1 ensures Adjacent(joined[i], joined[i + 1]) {
      if i < |p1| - 1 {
        assert joined[i] == p1[i] && joined[i + 1] == p1[i + 1];
      } else {
        var j := i - |p1| + 1;
        assert joined[i] == p2[j] && joined[i + 1] == p2[j + 1];
      }
    }
    assert IsPath(occupied, joined);
  }

  /** Any member of a cluster has the same cluster. */
  lemma SameCluster(occupied: set<Point>, a: Point, b: Point)
    requires b in ClusterOf(occupied, a)
    ensures ClusterOf(occupied, b) == ClusterOf(occupied, a)
  {
    forall c | c in ClusterOf(occupied, b) ensures c in ClusterOf(occupied, a) {
      LinkedTransitive(occupied, a, b, c);
    }
    forall c | c in ClusterOf(occupied, a) ensures c in ClusterOf(occupied, b) {
      LinkedSymmetric(occupied, a, b);
      LinkedTransitive(occupied, b, a, c);
    }
  }

  /** A set of cells that holds every occupied cell touching one of its cells. */
  ghost predicate ClosedUnder(occupied: set<Point>, cells: set<Point>)
  {
    forall c, d :: c in cells && d in occupied && Adjacent(c, d) ==> d in cells
  }

  /** A closed set holding the start of a link holds its end. */
  lemma {:induction false} LinkStaysInside(occupied: set<Point>, cells: set<Point>, path: seq<Point>)
    requires ClosedUnder(occupied, cells) && IsPath(occupied, path) && path[0] in cells
    ensures path[|path| - 1] in cells
    decreases |path|
  {
    if |path| > 1 {
      var front := path[..|path| - 1];
      assert IsPath(occupied, front);
      LinkStaysInside(occupied, cells, front);
      assert path[|path| - 2] in cells && Adjacent(path[|path| - 2], path[|path| - 1]);
    }
  }

  lemma ClosedHoldsLinked(occupied: set<Point>, cells: set<Point>, a: Point, b: Point)
    requires ClosedUnder(occupied, cells) && a in cells && Linked(occupied, a, b)
    ensures b in cells
  {
    var path :| IsPath(occupied, path) && path[0] == a && path[|path| - 1] == b;
    LinkStaysInside(occupied, cells, path);
  }

  /** What one flood fill from `p` did to the marked cells, from `before`
      to `after`: it only added occupied cells linked to `p`, every
      occupied cell touching an added cell is marked, `p` itself is marked
      when it was occupied and unmarked, and nothing happens from an empty
      or already marked cell. */
  ghost predicate Filled(occupied: set<Point>, p: Point, before: set<Point>, after: set<Point>)
  {
    before <= after && after - before <= occupied &&
    (forall c :: c in after - before ==> Linked(occupied, p, c)) &&
    (forall c, d :: c in after - before && d in occupied && Adjacent(c, d) ==> d in after) &&
    (p in occupied && p !in before ==> p in after) &&
    (p !in occupied || p in before ==> after == before)
  }

  /** From a closed set of marks, a fill from an occupied unmarked cell
      adds exactly that cell's cluster, and the marks stay closed. */
  lemma FillAddsCluster(occupied: set<Point>, p: Point, before: set<Point>, after: set<Point>)
    requires ClosedUnder(occupied, before) && Filled(occupied, p, before, after)
    requires p in occupied && p !in before
    ensures after - before == ClusterOf(occupied, p)
    ensures ClosedUnder(occupied, after)
  {
    var added := after - before;
    forall c, d | c in after && d in occupied && Adjacent(c, d) ensures d in after {
      if c in before {
        assert d in before;
      } else {
        assert c in added;
      }
    }
    forall b | b in ClusterOf(occupied, p) ensures b in added {
      ClosedHoldsLinked(occupied, after, p, b);
      if b in before {
        LinkedSymmetric(occupied, p, b);
        ClosedHoldsLinked(occupied, before, b, p);
      }
    }
  }

  /** The eight neighbour offsets, in the order `visit` tries them. */
  const Offsets: seq<Point> := [Point(-1, 0), Point(1, 0), Point(0, -1), Point(0, 1),
                                Point(-1, -1), Point(-1, 1), Point(1, -1), Point(1, 1)]

  /** Every touching cell is one of the eight offsets away. */
  lemma OffsetsCover(p: Point, d: Point)
    requires Adjacent(p, d)
    ensures exists k :: 0 <= k < 8 && d == p.Add(Offsets[k])
  {
    var dx, dy := d.x - p.x, d.y - p.y;
    var k := if dy == 0 then (if dx < 0 then 0 else 1)
             else if dx == 0 then (if dy < 0 then 2 else 3)
             else if dx < 0 then (if dy < 0 then 4 else 5)
             else (if dy < 0 then 6 else 7);
    assert d == p.Add(Offsets[k]);
  }

  /** The cells a grid of marks has set. */
  ghost function Marks(visited: array2<bool>): set<Point>
    reads visited
  {
    set y, x | 0 <= y < visited.Length0 && 0 <= x < visited.Length1 && visited[y, x] :: Point(x, y)
  }

  /** Every cell of a `width` by `height` grid. */
  ghost function Cells(width: nat, height: nat): set<Point>
  {
    set y, x | 0 <= y < height && 0 <= x < width :: Point(x, y)
  }

  /** The cells holding at least one robot. */
  ghost function Occupied(robots: seq<Robot>): set<Point>
  {
    set i | 0 <= i < |robots| :: robots[i].position
  }

  /** `grid` has `height` rows of `width` cells, and a cell is set exactly
      when it is in `occupied`, which lies on the grid. */
  ghost predicate Shows(grid: seq<seq<bool>>, width: nat, height: nat, occupied: set<Point>)
  {
    |grid| == height &&
    (forall y :: 0 <= y < height ==> |grid[y]| == width) &&
    (forall c :: c in occupied ==> InBounds(width, height, c)) &&
    (forall y, x :: 0 <= y < height && 0 <= x < width ==> (grid[y][x] <==> Point(x, y) in occupied))
  }

  /** `create_2d_grid`: a grid of `false` with every robot's cell set. */
  method CreateGrid(width: nat, height: nat, robots: seq<Robot>) returns (grid: seq<seq<bool>>)
    requires forall i :: 0 <= i < |robots| ==> InBounds(width, height, robots[i].position)
    ensures Shows(grid, width, height, Occupied(robots))
  {
    grid := seq(height, _ => seq(width, _ => false));
    for i := 0 to |robots|
      invariant |grid| == height
      invariant forall y :: 0 <= y < height ==> |grid[y]| == width
      invariant forall y, x :: 0 <= y < height && 0 <= x < width ==>
        (grid[y][x] <==> Point(x, y) in Occupied(robots[..i]))
    {
      var p := robots[i].position;
      assert Occupied(robots[..i + 1]) == Occupied(robots[..i]) + {p} by {
        assert robots[..i + 1] == robots[..i] + [robots[i]];
      }
      grid := grid[p.y := grid[p.y][p.x := true]];
    }
    assert robots[..|robots|] == robots;
  }

  /** Progress of the neighbour loop of a fill from `p` that has marked
      `p` and tried the first `k` offsets: what `Filled` promises, with
      the closure for `p` itself only over the offsets tried so far. */
  ghost predicate Gathering(occupied: set<Point>, p: Point, before: set<Point>, marks: set<Point>, k: nat)
  {
    k <= 8 && p in occupied && p !in before &&
    before + {p} <= marks && marks - before <= occupied &&
    (forall c :: c in marks - before ==> Linked(occupied, p, c)) &&
    (forall c, d :: c in marks - before && c != p && d in occupied && Adjacent(c, d) ==> d in marks) &&
    (forall j :: 0 <= j < k && p.Add(Offsets[j]) in occupied ==> p.Add(Offsets[j]) in marks)
  }

  /** Marking an occupied, unmarked `p` starts the neighbour loop. */
  lemma GatherStart(occupied: set<Point>, p: Point, before: set<Point>, grid: seq<seq<bool>>, width: nat, height: nat)
    requires Shows(grid, width, height, occupied) && InBounds(width, height, p)
    requires grid[p.y][p.x] && p !in before
    ensures Gathering(occupied, p, before, before + {p}, 0)
    ensures |before + {p}| == |before| + 1
  {
    assert p in occupied;
    LinkedSelf(occupied, p);
  }

  /** A fill from the `k`-th neighbour keeps the loop's invariant, and
      its count adds to the ones before. */
  lemma GatherStep(occupied: set<Point>, p: Point, k: nat, before: set<Point>, mid: set<Point>, after: set<Point>)
    requires k < 8 && Gathering(occupied, p, before, mid, k)
    requires Filled(occupied, p.Add(Offsets[k]), mid, after)
    ensures Gathering(occupied, p, before, after, k + 1)
  {
    var q := p.Add(Offsets[k]);
    assert Adjacent(p, q);
    forall c | c in after - mid ensures Linked(occupied, p, c) {
      LinkedPrepend(occupied, p, q, c);
    }
  }

  /** A neighbour off the grid is never occupied. */
  lemma GatherSkip(occupied: set<Point>, p: Point, k: nat, before: set<Point>, marks: set<Point>, width: nat, height: nat)
    requires k < 8 && Gathering(occupied, p, before, marks, k)
    requires forall c :: c in occupied ==> InBounds(width, height, c)
    requires !InBounds(width, height, p.Add(Offsets[k]))
    ensures Gathering(occupied, p, before, marks, k + 1)
  {
  }

  /** Once all eight offsets are tried, the fill is complete. */
  lemma GatherDone(occupied: set<Point>, p: Point, before: set<Point>, marks: set<Point>)
    requires Gathering(occupied, p, before, marks, 8)
    ensures Filled(occupied, p, before, marks)
  {
    forall d | d in occupied && Adjacent(p, d) ensures d in marks {
      OffsetsCover(p, d);
    }
  }

  /** Marking `p` and possibly more leaves fewer unmarked cells. */
  lemma FewerUnmarked(cells: set<Point>, before: set<Point>, now: set<Point>, p: Point)
    requires before + {p} <= now && p in cells && p !in before
    ensures |cells - now| < |cells - before|
  {
    var rest := (cells - before) - {p};
    assert cells - now <= rest;
    assert cells - before == rest + {p};
    assert rest == (cells - now) + (rest - (cells - now));
  }

  /** `visit`: from an occupied, unmarked cell, mark it and visit its
      neighbours on the grid in turn, counting the cells marked; from any
      other cell do nothing and count 0. */
  method Visit(p: Point, width: nat, height: nat, grid: seq<seq<bool>>, visited: array2<bool>, ghost occupied: set<Point>)
    returns (count: nat)
    requires Shows(grid, width, height, occupied)
    requires visited.Length0 == height && visited.Length1 == width
    requires InBounds(width, height, p)
    modifies visited
    ensures Filled(occupied, p, old(Marks(visited)), Marks(visited))
    ensures |old(Marks(visited))| + count == |Marks(visited)|
    decreases |Cells(width, height) - Marks(visited)|
  {
    ghost var before := Marks(visited);
    if grid[p.y][p.x] && !visited[p.y, p.x] {
      visited[p.y, p.x] := true;
      ghost var marks := Marks(visited);
      assert marks == before + {p};
      GatherStart(occupied, p, before, grid, width, height);
      count := 1;
      for k := 0 to 8
        invariant marks == Marks(visited)
        invariant Gathering(occupied, p, before, marks, k)
        invariant |before| + count == |marks|
      {
        var q := p.Add(Offsets[k]);
        if InBounds(width, height, q) {
          FewerUnmarked(Cells(width, height), before, marks, p);
          var n := Visit(q, width, height, grid, visited, occupied);
          ghost var after := Marks(visited);
          assert |marks| + n == |after|;
          GatherStep(occupied, p, k, before, marks, after);
          count := count + n;
          marks := after;
        } else {
          GatherSkip(occupied, p, k, before, marks, width, height);
        }
      }
      GatherDone(occupied, p, before, marks);
    } else {
      count := 0;
    }
  }

  /** The cells covered by the clusters of the given robots. */
  ghost function Covered(occupied: set<Point>, robots: seq<Robot>): set<Point>
  {
    if robots == [] then {}
    else Covered(occupied, robots[..|robots| - 1]) + ClusterOf(occupied, robots[|robots| - 1].position)
  }

  /** The size of the largest cluster holding one of the given robots. */
  ghost function Largest(occupied: set<Point>, robots: seq<Robot>): nat
  {
    if robots == [] then 0
    else Max(Largest(occupied, robots[..|robots| - 1]), |ClusterOf(occupied, robots[|robots| - 1].position)|)
  }

  /** A covered cell lies in the cluster of one of the robots. */
  lemma {:induction false} CoveredByOne(occupied: set<Point>, robots: seq<Robot>, c: Point)
    requires c in Covered(occupied, robots)
    ensures exists j :: 0 <= j < |robots| && c in ClusterOf(occupied, robots[j].position)
    decreases |robots|
  {
    var front := robots[..|robots| - 1];
    if c !in ClusterOf(occupied, robots[|robots| - 1].position) {
      CoveredByOne(occupied, front, c);
      var j :| 0 <= j < |front| && c in ClusterOf(occupied, front[j].position);
      assert robots[j] == front[j];
    }
  }

  /** Every robot's cluster is at most the largest. */
  lemma {:induction false} LargestBounds(occupied: set<Point>, robots: seq<Robot>, j: nat)
    requires j < |robots|
    ensures |ClusterOf(occupied, robots[j].position)| <= Largest(occupied, robots)
    decreases |robots|
  {
    var front := robots[..|robots| - 1];
    if j < |robots| - 1 {
      LargestBounds(occupied, front, j);
      assert front[j] == robots[j];
    }
  }

  /** Some robot's cluster has exactly the largest size. */
  lemma {:induction false} LargestAttained(occupied: set<Point>, robots: seq<Robot>)
    requires robots != []
    ensures exists j :: 0 <= j < |robots| && |ClusterOf(occupied, robots[j].position)| == Largest(occupied, robots)
    decreases |robots|
  {
    var front := robots[..|robots| - 1];
    if front != [] && Largest(occupied, front) > |ClusterOf(occupied, robots[|robots| - 1].position)| {
      LargestAttained(occupied, front);
      var j :| 0 <= j < |front| && |ClusterOf(occupied, front[j].position)| == Largest(occupied, front);
      assert front[j] == robots[j];
    } else {
      assert |ClusterOf(occupied, robots[|robots| - 1].position)| == Largest(occupied, robots);
    }
  }

  /** `Largest` over every robot is the size of the largest cluster of
      occupied cells anywhere on the grid: no cluster is larger, and when
      there are robots one cluster has that size. */
  lemma LargestIsLargestCluster(robots: seq<Robot>)
    ensures forall c :: c in Occupied(robots) ==> |ClusterOf(Occupied(robots), c)| <= Largest(Occupied(robots), robots)
    ensures robots != [] ==> exists c :: c in Occupied(robots) && |ClusterOf(Occupied(robots), c)| == Largest(Occupied(robots), robots)
  {
    var occupied := Occupied(robots);
    forall c | c in occupied ensures |ClusterOf(occupied, c)| <= Largest(occupied, robots) {
      var j :| 0 <= j < |robots| && robots[j].position == c;
      LargestBounds(occupied, robots, j);
    }
    if robots != [] {
      LargestAttained(occupied, robots);
      var j :| 0 <= j < |robots| && |ClusterOf(occupied, robots[j].position)| == Largest(occupied, robots);
      assert robots[j].position in occupied;
    }
  }

  /** After the loop of `count_max_contiguous` has handled `robots`: the
      marks are exactly their clusters, and `count` is the largest. */
  ghost predicate Swept(occupied: set<Point>, robots: seq<Robot>, marks: set<Point>, count: nat)
  {
    marks == Covered(occupied, robots) && ClosedUnder(occupied, marks) && count == Largest(occupied, robots)
  }

  /** One turn of the loop in `count_max_contiguous`: the fill from the
      `i`-th robot's cell covers that robot's cluster too, and the running
      maximum becomes the largest cluster so far. */
  lemma CountStep(occupied: set<Point>, robots: seq<Robot>, i: nat, before: set<Point>, after: set<Point>, count: nat, n: nat)
    requires i < |robots| && robots[i].position in occupied
    requires Swept(occupied, robots[..i], before, count)
    requires Filled(occupied, robots[i].position, before, after) && |before| + n == |after|
    ensures Swept(occupied, robots[..i + 1], after, Max(count, n))
  {
    var p := robots[i].position;
    assert robots[..i + 1][..i] == robots[..i];
    if p in before {
      CountMarked(occupied, robots[..i], p, before);
    } else {
      FillAddsCluster(occupied, p, before, after);
      assert after == before + ClusterOf(occupied, p);
    }
  }

  /** A robot on a covered cell adds nothing: its cluster is covered and
      no larger than the largest so far. */
  lemma CountMarked(occupied: set<Point>, robots: seq<Robot>, p: Point, before: set<Point>)
    requires before == Covered(occupied, robots) && ClosedUnder(occupied, before) && p in before
    ensures ClusterOf(occupied, p) <= before
    ensures |ClusterOf(occupied, p)| <= Largest(occupied, robots)
  {
    CoveredByOne(occupied, robots, p);
    var j :| 0 <= j < |robots| && p in ClusterOf(occupied, robots[j].position);
    SameCluster(occupied, robots[j].position, p);
    LargestBounds(occupied, robots, j);
    forall c | c in ClusterOf(occupied, p) ensures c in before {
      ClosedHoldsLinked(occupied, before, p, c);
    }
  }

  /** `count_max_contiguous`: flood fill from every robot's cell over one
      grid of marks, keeping the largest count. */
  method CountMaxContiguous(width: nat, height: nat, robots: seq<Robot>) returns (count: nat)
    requires forall i :: 0 <= i < |robots| ==> InBounds(width, height, robots[i].position)
    ensures count == Largest(Occupied(robots), robots)
  {
    ghost var occupied := Occupied(robots);
    var grid := CreateGrid(width, height, robots);
    var visited := new bool[height, width]((_, _) => false);
    ghost var marks := Marks(visited);
    assert marks == {};
    count := 0;
    for i := 0 to |robots|
      invariant marks == Marks(visited)
      invariant Swept(occupied, robots[..i], marks, count)
    {
      var n := Visit(robots[i].position, width, height, grid, visited, occupied);
      ghost var after := Marks(visited);
      CountStep(occupied, robots, i, marks, after, count, n);
      count := Max(count, n);
      marks := after;
    }
    assert robots[..|robots|] == robots;
  }

  /** The largest cluster after `n` seconds. */
  ghost function Contiguous(robots: seq<Robot>, width: nat, height: nat, n: nat): nat
    requires width > 0 && height > 0
  {
    var after := Ticks(robots, width, height, n);
    Largest(Occupied(after), after)
  }

  /** `period` is the first second, counting from 1, at which the robots
      are all back where they started. */
  ghost predicate FirstReturn(robots: seq<Robot>, width: nat, height: nat, period: nat)
    requires width > 0 && height > 0
  {
    1 <= period && Ticks(robots, width, height, period) == robots &&
    forall n :: 1 <= n < period ==> Ticks(robots, width, height, n) != robots
  }

  /** Among seconds `1 .. last`, `second` has the largest cluster and is
      the earliest with that size. */
  ghost predicate EarliestLargest(robots: seq<Robot>, width: nat, height: nat, last: nat, second: nat)
    requires width > 0 && height > 0
  {
    1 <= second <= last &&
    (forall n :: 1 <= n <= last ==> Contiguous(robots, width, height, n) <= Contiguous(robots, width, height, second)) &&
    (forall n :: 1 <= n < second ==> Contiguous(robots, width, height, n) < Contiguous(robots, width, height, second))
  }

  /** The same on the list of sizes measured so far, second `n` at index `n - 1`. */
  predicate Earliest(sizes: seq<nat>, second: nat)
  {
    1 <= second <= |sizes| &&
    (forall k :: 0 <= k < |sizes| ==> sizes[k] <= sizes[second - 1]) &&
    (forall k :: 0 <= k < second - 1 ==> sizes[k] < sizes[second - 1])
  }

  /** `sizes` are the largest clusters of seconds `1 .. |sizes|`. */
  ghost predicate Measured(robots: seq<Robot>, width: nat, height: nat, sizes: seq<nat>)
    requires width > 0 && height > 0
  {
    forall k :: 0 <= k < |sizes| ==> sizes[k] == Contiguous(robots, width, height, k + 1)
  }

  /** The robots have not been back at their start in seconds `1 .. i`. */
  ghost predicate Away(robots: seq<Robot>, width: nat, height: nat, i: nat)
    requires width > 0 && height > 0
  {
    forall n :: 1 <= n <= i ==> Ticks(robots, width, height, n) != robots
  }

  /** The best second so far and its cluster size (the `Solution` of
      `do_it`, without the copy of the state kept for display). */
  datatype Solution = Solution(count: nat, second: nat)

  /** Keeping a new second only when its size is strictly larger keeps
      the earliest second with the largest size. */
  lemma KeepEarliest(sizes: seq<nat>, best: Option<Solution>, count: nat)
    requires best.None? <==> sizes == []
    requires best.Some? ==> Earliest(sizes, best.value.second) && best.value.count == sizes[best.value.second - 1]
    ensures var next := if best.None? || count > best.value.count then Solution(count, |sizes| + 1) else best.value;
      Earliest(sizes + [count], next.second) && next.count == (sizes + [count])[next.second - 1]
  {
  }

  /** The earliest largest measured size is the earliest largest cluster. */
  lemma MeasuredEarliest(robots: seq<Robot>, width: nat, height: nat, sizes: seq<nat>, second: nat)
    requires width > 0 && height > 0
    requires Measured(robots, width, height, sizes) && Earliest(sizes, second)
    ensures EarliestLargest(robots, width, height, |sizes|, second)
  {
    forall n | 1 <= n <= |sizes|
      ensures Contiguous(robots, width, height, n) == sizes[n - 1]
    {
    }
  }

  /** What the search loop knows after `i` seconds: the robots have not
      returned yet, `sizes` holds the largest cluster of every second so
      far, and `best` is the earliest second with the largest one. */
  ghost predicate Searched(robots: seq<Robot>, width: nat, height: nat, i: nat, sizes: seq<nat>, best: Option<Solution>)
    requires width > 0 && height > 0
  {
    i <= width * height && |sizes| == i &&
    Away(robots, width, height, i) &&
    Measured(robots, width, height, sizes) &&
    (best.None? <==> sizes == []) &&
    (best.Some? ==> Earliest(sizes, best.value.second) && best.value.count == sizes[best.value.second - 1])
  }

  /** A second measured after `i` keeps what the loop knows, and robots on
      the grid cannot stay away for `width * height` seconds. */
  lemma SearchStep(robots: seq<Robot>, width: nat, height: nat, i: nat, sizes: seq<nat>, best: Option<Solution>, count: nat)
    requires width > 0 && height > 0 && OnGrid(robots, width, height)
    requires Searched(robots, width, height, i, sizes, best)
    requires count == Contiguous(robots, width, height, i + 1)
    ensures i < width * height
    ensures var next := if best.None? || count > best.value.count then Solution(count, i + 1) else best.value;
      Earliest(sizes + [count], next.second) && next.count == (sizes + [count])[next.second - 1]
    ensures Measured(robots, width, height, sizes + [count])
  {
    StillAway(robots, width, height, i);
    KeepEarliest(sizes, best, count);
    MeasuredStep(robots, width, height, sizes, count);
  }

  /** Robots on the grid cannot stay away for `width * height` seconds. */
  lemma StillAway(robots: seq<Robot>, width: nat, height: nat, i: nat)
    requires width > 0 && height > 0 && OnGrid(robots, width, height)
    requires Away(robots, width, height, i)
    ensures i < width * height
  {
    TicksPeriodic(robots, width, height);
    MulAtLeast(height, width);
  }

  /** Measuring one more second extends the measured sizes. */
  lemma MeasuredStep(robots: seq<Robot>, width: nat, height: nat, sizes: seq<nat>, count: nat)
    requires width > 0 && height > 0
    requires Measured(robots, width, height, sizes)
    requires count == Contiguous(robots, width, height, |sizes| + 1)
    ensures Measured(robots, width, height, sizes + [count])
  {
  }

  /** Another second away from the start keeps the robots away. */
  lemma AwayStep(robots: seq<Robot>, width: nat, height: nat, i: nat, now: seq<Robot>)
    requires width > 0 && height > 0
    requires Away(robots, width, height, i)
    requires now == Ticks(robots, width, height, i + 1)
    requires now != robots
    ensures Away(robots, width, height, i + 1)
  {
  }

  /** The search loop of `do_it`: advance a second at a time, measure the
      largest cluster, keep the earliest second with the largest one, and
      stop when the robots are back at their start. The robots must start
      on the grid, or they never return. */
  method Search(robots: seq<Robot>, width: nat, height: nat) returns (second: nat, ghost period: nat)
    requires width > 0 && height > 0 && OnGrid(robots, width, height)
    ensures FirstReturn(robots, width, height, period)
    ensures EarliestLargest(robots, width, height, period, second)
  {
    var state := new State(width, height, robots);
    var i: nat := 0;
    var best: Option<Solution> := None;
    ghost var sizes: seq<nat> := [];
    while true
      invariant state.width == width && state.height == height
      invariant state.robots == Ticks(robots, width, height, i)
      invariant Searched(robots, width, height, i, sizes, best)
      decreases width * height - i
    {
      ghost var before := i;
      state.Advance();
      i := i + 1;
      var count := CountMaxContiguous(state.width, state.height, state.robots);
      SearchStep(robots, width, height, before, sizes, best, count);
      if best.None? || count > best.value.count {
        best := Some(Solution(count, i));
      }
      sizes := sizes + [count];
      if state.robots == robots {
        MeasuredEarliest(robots, width, height, sizes, best.value.second);
        return best.value.second, i;
      }
      AwayStep(robots, width, height, before, state.robots);
    }
  }

  /** `do_it`: the trimmed lines read as robots, then the search. A robot
      that starts off the grid is an error here, where the search would
      never end. */
  method Solve(lines: seq<string>, width: nat, height: nat) returns (r: Result<nat>)
    requires width > 0 && height > 0
    ensures r.Ok? <==> ReadRobots(TrimLines(lines)).Ok? && OnGrid(ReadRobots(TrimLines(lines)).value, width, height)
    ensures r.Ok? ==> exists period :: (FirstReturn(ReadRobots(TrimLines(lines)).value, width, height, period) &&
                                       EarliestLargest(ReadRobots(TrimLines(lines)).value, width, height, period, r.value))
  {
    var robots := ReadRobots(TrimLines(lines));
    if robots.Err? {
      return Err(robots.msg);
    }
    if !OnGrid(robots.value, width, height) {
      return Err("a robot starts off the grid and never returns");
    }
    var second, period := Search(robots.value, width, height);
    return Ok(second);
  }

  /** Every robot stands on the grid. */
  predicate OnGrid(robots: seq<Robot>, width: nat, height: nat)
  {
    forall i :: 0 <= i < |robots| ==> InBounds(width, height, robots[i].position)
  }
}
