/** Hiking trails on a topographic map: from each height-0 cell, climb one
    unit per step to a 4-neighbour; a trailhead scores the number of
    distinct height-9 cells it reaches. */
module Day10a {
  import opened Common
  import opened Grid2D
  import opened Text

  /** Heights in row-major order. */
  datatype Map = Map(width: nat, height: nat, data: seq<nat>)

  /** One height from 0 to 9 per cell; a map without columns has no cells. */
  ghost predicate Valid(m: Map)
  {
    |m.data| == m.width * m.height && (m.width == 0 ==> m.data == []) &&
    forall i :: 0 <= i < |m.data| ==> m.data[i] <= 9
  }

  predicate DigitLines(lines: seq<string>)
  {
    forall i, j :: 0 <= i < |lines| && 0 <= j < |lines[i]| ==> IsDigit(lines[i][j])
  }

  /** The heights of one line of digits. */
  function Heights(line: string): (r: seq<nat>)
    requires AllDigits(line)
    ensures |r| == |line| && forall j :: 0 <= j < |line| ==> r[j] == DigitValue(line[j]) <= 9
  {
    seq(|line|, j requires 0 <= j < |line| => DigitValue(line[j]))
  }

  /** `Map::new`: the lines must share one length (so there must be at
      least one line) and hold only the digits 0 to 9. */
  function ReadMap(lines: seq<string>): (r: Result<Map>)
    ensures r.Ok? <==> lines != [] && SameWidth(lines) && DigitLines(lines)
    ensures r.Ok? ==> Valid(r.value) && r.value.width == |lines[0]| && r.value.height == |lines|
    ensures r.Ok? ==> forall p :: InBounds(r.value.width, r.value.height, p) ==>
      Get(r.value, p) == Some(DigitValue(lines[p.y][p.x]))
  {
    if lines == [] || !SameWidth(lines) then Err("expected all lines to be the same length")
    else if !DigitLines(lines) then Err("unhandled map height")
    else
      var rows := seq(|lines|, i requires 0 <= i < |lines| => Heights(lines[i]));
      ReadMapCells(lines, rows);
      Ok(Map(|lines[0]|, |lines|, Flatten(rows)))
  }

  /** The flattened heights are a valid map whose cell (x, y) is digit x of line y. */
  lemma ReadMapCells(lines: seq<string>, rows: seq<seq<nat>>)
    requires lines != [] && SameWidth(lines) && DigitLines(lines)
    requires rows == seq(|lines|, i requires 0 <= i < |lines| => Heights(lines[i]))
    ensures Valid(Map(|lines[0]|, |lines|, Flatten(rows)))
    ensures forall p :: InBounds(|lines[0]|, |lines|, p) ==>
      Get(Map(|lines[0]|, |lines|, Flatten(rows)), p) == Some(DigitValue(lines[p.y][p.x]))
  {
    var width, height := |lines[0]|, |lines|;
    FlattenLength(rows, width);
    var m := Map(width, height, Flatten(rows));
    assert height * width == width * height;
    forall i | 0 <= i < |m.data| ensures m.data[i] <= 9 {
      var p := PointAt(width, i);
      SlotRow(width, height, p);
      RowSlots(rows, width, p.y);
      assert m.data[p.y * width + p.x] == rows[p.y][p.x] == Heights(lines[p.y])[p.x];
    }
    forall p | InBounds(width, height, p) ensures Get(m, p) == Some(DigitValue(lines[p.y][p.x])) {
      RowSlots(rows, width, p.y);
      assert m.data[p.y * width + p.x] == rows[p.y][p.x] == Heights(lines[p.y])[p.x];
    }
  }

  /** `get`: the height at `p`, or None off the map. */
  function Get(m: Map, p: Point): (r: Option<nat>)
    requires Valid(m)
    ensures r.Some? <==> InBounds(m.width, m.height, p)
    ensures r.Some? ==> r.value <= 9
  {
    if 0 <= p.x < m.width && 0 <= p.y < m.height then
      IndexBounds(m.width, m.height, p);
      Some(m.data[Index(m.width, p)])
    else None
  }

  function Height(m: Map, p: Point): nat
    requires Valid(m) && InBounds(m.width, m.height, p)
  {
    Get(m, p).value
  }

  /** `find_all`: the cells holding `value`, row by row. */
  method FindAll(m: Map, value: nat) returns (results: seq<Point>)
    requires Valid(m)
    ensures results == Positions(m.data, m.width, value, |m.data|)
  {
    results := [];
    var i := 0;
    for y := 0 to m.height
      invariant i == y * m.width <= |m.data|
      invariant results == Positions(m.data, m.width, value, i)
    {
      RowsApart(y, m.height, m.width);
      results := FindInRow(m, value, y, i, results);
      i := i + m.width;
    }
  }

  /** The inner loop of `find_all`, over row `y`, whose first slot is `i`. */
  method FindInRow(m: Map, value: nat, y: nat, i: nat, results: seq<Point>) returns (r: seq<Point>)
    requires Valid(m) && i == y * m.width && i + m.width <= |m.data|
    requires results == Positions(m.data, m.width, value, i)
    ensures r == Positions(m.data, m.width, value, i + m.width)
  {
    r := results;
    for x := 0 to m.width
      invariant r == Positions(m.data, m.width, value, i + x)
    {
      PointAtIndex(m.width, Point(x, y));
      if m.data[i + x] == value {
        r := r + [Point(x, y)];
      }
    }
  }

  /** `find_all` lists every cell holding the value, each once, and nothing else. */
  lemma FindAllComplete(m: Map, value: nat, p: Point)
    requires Valid(m)
    ensures p in Positions(m.data, m.width, value, |m.data|) <==>
      InBounds(m.width, m.height, p) && Get(m, p) == Some(value)
  {
    if p in Positions(m.data, m.width, value, |m.data|) {
      PositionsMember(m.data, m.width, value, |m.data|, p);
      assert m.height * m.width == m.width * m.height;
      SlotRow(m.width, m.height, p);
    }
    if InBounds(m.width, m.height, p) && Get(m, p) == Some(value) {
      IndexBounds(m.width, m.height, p);
      PositionsComplete(m.data, m.width, value, |m.data|, Index(m.width, p));
      PointAtIndex(m.width, p);
    }
  }

  /** The neighbours `count_paths` tries, in its order: left, right, up, down. */
  function Candidates(p: Point): seq<Point>
  {
    [Point(p.x - 1, p.y), Point(p.x + 1, p.y), Point(p.x, p.y - 1), Point(p.x, p.y + 1)]
  }

  /** A step of a trail: onto the map, exactly one unit higher. */
  predicate Climbs(m: Map, p: Point, q: Point)
    requires Valid(m) && InBounds(m.width, m.height, p)
  {
    InBounds(m.width, m.height, q) && Height(m, q) == Height(m, p) + 1
  }

  /** The height-9 cells reachable from `p` by climbing steps. */
  ghost function PeaksFrom(m: Map, p: Point): set<Point>
    requires Valid(m) && InBounds(m.width, m.height, p)
    decreases 10 - Height(m, p), 1
  {
    if Height(m, p) == 9 then {p}
    else PeaksVia(m, p, 0)
  }

  /** The peaks reached through candidates `k` to 3 of `p`. */
  ghost function PeaksVia(m: Map, p: Point, k: nat): set<Point>
    requires Valid(m) && InBounds(m.width, m.height, p) && k <= 4
    decreases 10 - Height(m, p), 0, 4 - k
  {
    if k == 4 then {}
    else
      var q := Candidates(p)[k];
      (if Climbs(m, p, q) then PeaksFrom(m, q) else {}) + PeaksVia(m, p, k + 1)
  }

  /** From a peak nothing is higher, so the peak is all it reaches. */
  lemma {:induction false} PeakHasNoClimb(m: Map, p: Point, k: nat)
    requires Valid(m) && InBounds(m.width, m.height, p) && k <= 4 && Height(m, p) == 9
    ensures PeaksVia(m, p, k) == {}
    decreases 4 - k
  {
    if k < 4 {
      PeakHasNoClimb(m, p, k + 1);
    }
  }

  /** What `PeaksFrom` holds: cells of height 9, at most `9 - height` steps away. */
  lemma {:induction false} PeaksAreSummits(m: Map, p: Point)
    requires Valid(m) && InBounds(m.width, m.height, p)
    ensures forall q :: q in PeaksFrom(m, p) ==>
      InBounds(m.width, m.height, q) && Height(m, q) == 9 && Manhattan(p, q) <= 9 - Height(m, p)
    decreases 10 - Height(m, p), 1
  {
    if Height(m, p) < 9 {
      ViaAreSummits(m, p, 0);
    }
  }

  lemma {:induction false} ViaAreSummits(m: Map, p: Point, k: nat)
    requires Valid(m) && InBounds(m.width, m.height, p) && k <= 4
    ensures forall q :: q in PeaksVia(m, p, k) ==>
      InBounds(m.width, m.height, q) && Height(m, q) == 9 && Manhattan(p, q) <= 9 - Height(m, p)
    decreases 10 - Height(m, p), 0, 4 - k
  {
    if k < 4 {
      var c := Candidates(p)[k];
      if Climbs(m, p, c) {
        PeaksAreSummits(m, c);
      }
      ViaAreSummits(m, p, k + 1);
    }
  }

  /** A hiking trail: on the map throughout, each step to one of the
      candidate neighbours and exactly one unit higher. */
  ghost predicate IsTrail(m: Map, t: seq<Point>)
    requires Valid(m)
  {
    |t| >= 1 && (forall i :: 0 <= i < |t| ==> InBounds(m.width, m.height, t[i])) &&
    forall i :: 0 <= i < |t| - 1 ==> t[i + 1] in Candidates(t[i]) && Climbs(m, t[i], t[i + 1])
  }

  /** `PeaksFrom` is what the trails reach: `q` is in it exactly when some
      trail leads from `p` to `q` and `q` has height 9. */
  lemma PeaksAreTrailEnds(m: Map, p: Point, q: Point)
    requires Valid(m) && InBounds(m.width, m.height, p)
    ensures q in PeaksFrom(m, p) <==>
      InBounds(m.width, m.height, q) && Height(m, q) == 9 &&
      exists t :: IsTrail(m, t) && t[0] == p && t[|t| - 1] == q
  {
    if q in PeaksFrom(m, p) {
      var t := TrailTo(m, p, q);
      PeaksAreSummits(m, p);
    }
    if InBounds(m.width, m.height, q) && Height(m, q) == 9 &&
       exists t :: IsTrail(m, t) && t[0] == p && t[|t| - 1] == q {
      var t :| IsTrail(m, t) && t[0] == p && t[|t| - 1] == q;
      TrailEndIsPeak(m, t);
    }
  }

  /** A trail to every peak in `PeaksFrom`. */
  lemma {:induction false} TrailTo(m: Map, p: Point, q: Point) returns (t: seq<Point>)
    requires Valid(m) && InBounds(m.width, m.height, p) && q in PeaksFrom(m, p)
    ensures IsTrail(m, t) && t[0] == p && t[|t| - 1] == q
    decreases 10 - Height(m, p)
  {
    if Height(m, p) == 9 {
      t := [p];
    } else {
      var j := ViaWitness(m, p, 0, q);
      var c := Candidates(p)[j];
      var rest := TrailTo(m, c, q);
      t := [p] + rest;
      assert forall i :: 0 < i < |t| ==> t[i] == rest[i - 1];
    }
  }

  /** A peak reached through candidates `k` to 3 is reached through one of them. */
  lemma {:induction false} ViaWitness(m: Map, p: Point, k: nat, q: Point) returns (j: nat)
    requires Valid(m) && InBounds(m.width, m.height, p) && k <= 4 && q in PeaksVia(m, p, k)
    ensures k <= j < 4 && Climbs(m, p, Candidates(p)[j]) && q in PeaksFrom(m, Candidates(p)[j])
    decreases 4 - k
  {
    var c := Candidates(p)[k];
    if Climbs(m, p, c) && q in PeaksFrom(m, c) {
      j := k;
    } else {
      j := ViaWitness(m, p, k + 1, q);
    }
  }

  /** The end of a trail that reaches height 9 is among the peaks of its start. */
  lemma {:induction false} TrailEndIsPeak(m: Map, t: seq<Point>)
    requires Valid(m) && IsTrail(m, t) && Height(m, t[|t| - 1]) == 9
    ensures t[|t| - 1] in PeaksFrom(m, t[0])
    decreases |t|
  {
    if |t| > 1 {
      var rest := t[1..];
      assert IsTrail(m, rest) by {
        forall i | 0 <= i < |rest| - 1 ensures rest[i + 1] in Candidates(rest[i]) && Climbs(m, rest[i], rest[i + 1]) {
          assert rest[i] == t[i + 1] && rest[i + 1] == t[i + 2];
        }
      }
      TrailEndIsPeak(m, rest);
      var j :| 0 <= j < 4 && Candidates(t[0])[j] == t[1];
      assert Height(m, t[0]) < 9 by {
        assert Height(m, t[1]) == Height(m, t[0]) + 1 && Height(m, t[1]) <= 9;
      }
      ViaIncludes(m, t[0], 0, j);
    }
  }

  /** The peaks through candidates `k` to 3 include those of each climbing candidate. */
  lemma {:induction false} ViaIncludes(m: Map, p: Point, k: nat, j: nat)
    requires Valid(m) && InBounds(m.width, m.height, p) && k <= j < 4
    requires Climbs(m, p, Candidates(p)[j])
    ensures PeaksFrom(m, Candidates(p)[j]) <= PeaksVia(m, p, k)
    decreases j - k
  {
    if k < j {
      ViaIncludes(m, p, k + 1, j);
    }
  }

  /** The peaks reachable from every point of the work list. */
  ghost function PeaksOfAll(m: Map, queue: seq<Point>): set<Point>
    requires Valid(m) && forall i :: 0 <= i < |queue| ==> InBounds(m.width, m.height, queue[i])
  {
    if queue == [] then {}
    else PeaksOfAll(m, queue[..|queue| - 1]) + PeaksFrom(m, queue[|queue| - 1])
  }

  /** A point of height `h` weighs `5^(10 - h)`: each point popped is replaced
      by at most four points one unit higher, which weigh less in total. */
  function Weight(m: Map, queue: seq<Point>): nat
    requires Valid(m) && forall i :: 0 <= i < |queue| ==> InBounds(m.width, m.height, queue[i])
  {
    if queue == [] then 0
    else Weight(m, queue[..|queue| - 1]) + Pow(5, 10 - Height(m, queue[|queue| - 1]))
  }

  /** `count_paths`: the work-list search from `start`, counting the
      distinct peaks it pops. */
  method CountPeaks(m: Map, start: Point) returns (count: nat)
    requires Valid(m) && InBounds(m.width, m.height, start)
    ensures count == |PeaksFrom(m, start)|
  {
    var queue := [start];
    var results: set<Point> := {};
    assert queue[..0] == [];
    while queue != []
      invariant forall i :: 0 <= i < |queue| ==> InBounds(m.width, m.height, queue[i])
      invariant results + PeaksOfAll(m, queue) == PeaksFrom(m, start)
      decreases Weight(m, queue)
    {
      var current := queue[|queue| - 1];
      ghost var queue0 := queue;
      queue := queue[..|queue| - 1];
      assert PeaksOfAll(m, queue0) == PeaksOfAll(m, queue) + PeaksFrom(m, current);
      assert Weight(m, queue0) == Weight(m, queue) + Pow(5, 10 - Height(m, current));
      var value := Get(m, current).value;
      if value == 9 {
        results := results + {current};
        PeakHasNoClimb(m, current, 0);
      }
      assert results + Pending(m, queue, current, 0) == PeaksFrom(m, start);
      queue, results := PushClimbs(m, current, queue, results, PeaksFrom(m, start));
    }
    count := |results|;
  }

  /** What is still to be found while candidate `k` of `current` is next:
      the peaks of the work list and those through the remaining candidates. */
  ghost function Pending(m: Map, queue: seq<Point>, current: Point, k: nat): set<Point>
    requires Valid(m) && forall i :: 0 <= i < |queue| ==> InBounds(m.width, m.height, queue[i])
    requires InBounds(m.width, m.height, current) && k <= 4
  {
    PeaksOfAll(m, queue) + PeaksVia(m, current, k)
  }

  /** Trying candidate `k`: pushing it when it climbs, skipping it otherwise,
      leaves what is still to be found unchanged. */
  lemma PendingStep(m: Map, queue: seq<Point>, current: Point, k: nat)
    requires Valid(m) && forall i :: 0 <= i < |queue| ==> InBounds(m.width, m.height, queue[i])
    requires InBounds(m.width, m.height, current) && k < 4
    ensures var q := Candidates(current)[k];
      if Climbs(m, current, q) then Pending(m, queue + [q], current, k + 1) == Pending(m, queue, current, k)
      else Pending(m, queue, current, k + 1) == Pending(m, queue, current, k)
  {
    var q := Candidates(current)[k];
    if Climbs(m, current, q) {
      assert (queue + [q])[..|queue|] == queue;
      assert PeaksOfAll(m, queue + [q]) == PeaksOfAll(m, queue) + PeaksFrom(m, q);
    }
  }

  /** The inner loop of `count_paths`: push every candidate one unit higher. */
  method PushClimbs(m: Map, current: Point, queue: seq<Point>, results: set<Point>, ghost target: set<Point>)
    returns (queue': seq<Point>, results': set<Point>)
    requires Valid(m) && InBounds(m.width, m.height, current)
    requires forall i :: 0 <= i < |queue| ==> InBounds(m.width, m.height, queue[i])
    requires results + Pending(m, queue, current, 0) == target
    ensures results' == results
    ensures forall i :: 0 <= i < |queue'| ==> InBounds(m.width, m.height, queue'[i])
    ensures results' + PeaksOfAll(m, queue') == target
    ensures Weight(m, queue') < Weight(m, queue) + Pow(5, 10 - Height(m, current))
  {
    queue', results' := queue, results;
    var value := Height(m, current);
    ghost var unit: nat := Pow(5, 9 - value);
    ghost var w0: nat := Weight(m, queue);
    ghost var pushed: nat := 0;
    for k := 0 to 4
      invariant forall i :: 0 <= i < |queue'| ==> InBounds(m.width, m.height, queue'[i])
      invariant results + Pending(m, queue', current, k) == target
      invariant pushed <= k && Weight(m, queue') == w0 + pushed * unit
    {
      var next := Candidates(current)[k];
      var n := Get(m, next);
      PendingStep(m, queue', current, k);
      if n.Some? && value + 1 == n.value {
        WeightPush(m, queue', next);
        NextRow(pushed, unit);
        queue' := queue' + [next];
        pushed := pushed + 1;
      }
    }
    assert PeaksVia(m, current, 4) == {};
    assert Pending(m, queue', current, 4) == PeaksOfAll(m, queue');
    PowPositive(5, 9 - value);
    MulBelow(pushed, unit);
  }

  /** Pushing a point adds its weight. */
  lemma WeightPush(m: Map, queue: seq<Point>, p: Point)
    requires Valid(m) && forall i :: 0 <= i < |queue| ==> InBounds(m.width, m.height, queue[i])
    requires InBounds(m.width, m.height, p)
    ensures Weight(m, queue + [p]) == Weight(m, queue) + Pow(5, 10 - Height(m, p))
  {
    var q := queue + [p];
    assert q[..|q| - 1] == queue && q[|q| - 1] == p;
    assert forall i :: 0 <= i < |q| ==> InBounds(m.width, m.height, q[i]);
  }

  /** At most four units stay below five. */
  lemma MulBelow(a: nat, b: nat)
    requires a <= 4 && b > 0
    ensures a * b < 5 * b
  {
  }

  /** The score of every trailhead, added up. */
  ghost function TotalScore(m: Map, heads: seq<Point>): nat
    requires Valid(m) && forall i :: 0 <= i < |heads| ==> InBounds(m.width, m.height, heads[i])
  {
    if heads == [] then 0
    else TotalScore(m, heads[..|heads| - 1]) + |PeaksFrom(m, heads[|heads| - 1])|
  }

  /** `do_it`: trim the lines, read the map, and add up the scores of the
      height-0 cells. */
  method Solve(lines: seq<string>) returns (r: Result<nat>)
    ensures r.Ok? <==> ReadMap(TrimLines(lines)).Ok?
    ensures r.Ok? ==> (var m := ReadMap(TrimLines(lines)).value;
      InBoundsAll(m, Positions(m.data, m.width, 0, |m.data|)) &&
      r.value == TotalScore(m, Positions(m.data, m.width, 0, |m.data|)))
  {
    var parsed := ReadMap(TrimLines(lines));
    if parsed.Err? {
      return Err(parsed.msg);
    }
    var m := parsed.value;
    var heads := FindAll(m, 0);
    HeadsInBounds(m, heads);
    var total := SumScores(m, heads);
    return Ok(total);
  }

  /** The `map(count_paths).sum()` over the trailheads. */
  method SumScores(m: Map, heads: seq<Point>) returns (total: nat)
    requires Valid(m) && InBoundsAll(m, heads)
    ensures total == TotalScore(m, heads)
  {
    total := 0;
    for i := 0 to |heads|
      invariant total == TotalScore(m, heads[..i])
    {
      assert heads[..i + 1][..i] == heads[..i];
      var score := CountPeaks(m, heads[i]);
      total := total + score;
    }
    assert heads[..|heads|] == heads;
  }

  predicate InBoundsAll(m: Map, ps: seq<Point>)
  {
    forall i :: 0 <= i < |ps| ==> InBounds(m.width, m.height, ps[i])
  }

  lemma HeadsInBounds(m: Map, heads: seq<Point>)
    requires Valid(m) && heads == Positions(m.data, m.width, 0, |m.data|)
    ensures InBoundsAll(m, heads)
  {
    forall i | 0 <= i < |heads| ensures InBounds(m.width, m.height, heads[i]) {
      FindAllComplete(m, 0, heads[i]);
    }
  }
}
