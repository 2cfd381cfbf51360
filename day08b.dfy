/** Resonant antennas: every pair of antennas of one frequency puts an
    antinode on each in-bounds cell of the line through them, at whole
    multiples of their offset. */
module Day08b {
  import opened Common
  import opened Grid2D
  import opened Text

  /** The map: its size and, per frequency, the antenna positions in
      row-major order. */
  datatype Grid = Grid(width: nat, height: nat, towers: map<char, seq<Point>>)

  predicate UniqueWidth(rows: seq<string>)
  {
    rows != [] && rows[0] != [] && forall i :: 0 <= i < |rows| ==> |rows[i]| == |rows[0]|
  }

  /** The frequencies seen before slot `k`. */
  function KindsBefore(flat: string, k: nat): set<char>
    requires k <= |flat|
  {
    set i | 0 <= i < k && flat[i] != '.' :: flat[i]
  }

  /** The tower map after the first `k` cells: a '.' changes nothing, anything
      else appends the cell to its frequency's list, creating the list if needed. */
  function TowersBefore(flat: string, width: nat, k: nat): map<char, seq<Point>>
    requires width >= 1 && k <= |flat|
  {
    if k == 0 then map[]
    else
      var before, c := TowersBefore(flat, width, k - 1), flat[k - 1];
      if c == '.' then before
      else before[c := (if c in before then before[c] else []) + [PointAt(width, k - 1)]]
  }

  /** The map has a key for every character other than '.' seen so far, and
      lists under it exactly the cells holding it, in row-major order. */
  lemma {:induction false} TowersListPositions(flat: string, width: nat, k: nat)
    requires width >= 1 && k <= |flat|
    ensures TowersBefore(flat, width, k).Keys == KindsBefore(flat, k)
    ensures forall c :: c in TowersBefore(flat, width, k) ==>
      TowersBefore(flat, width, k)[c] == Positions(flat, width, c, k)
  {
    if k > 0 {
      TowersListPositions(flat, width, k - 1);
      var before, c := TowersBefore(flat, width, k - 1), flat[k - 1];
      assert KindsBefore(flat, k) == KindsBefore(flat, k - 1) + (if c == '.' then {} else {c});
      if c != '.' && c !in before {
        NoPositions(flat, width, c, k - 1);
      }
    }
  }

  /** A character not seen yet has no positions. */
  lemma {:induction false} NoPositions(flat: string, width: nat, c: char, k: nat)
    requires width >= 1 && k <= |flat| && c != '.' && c !in KindsBefore(flat, k)
    ensures Positions(flat, width, c, k) == []
  {
    if k > 0 {
      assert flat[k - 1] != c;
      assert KindsBefore(flat, k - 1) <= KindsBefore(flat, k);
      NoPositions(flat, width, c, k - 1);
    }
  }

  /** The map `Grid::new` builds: trim, drop blank lines, demand one width,
      and list every non-'.' cell under its character. */
  function ReadGrid(lines: seq<string>): (r: Result<Grid>)
    ensures r.Ok? <==> UniqueWidth(NonBlankLines(lines))
    ensures r.Ok? ==> Valid(r.value)
  {
    var rows := NonBlankLines(lines);
    if !UniqueWidth(rows) then Err("uneven row lengths")
    else
      FlattenIndex(rows, |rows[0]|);
      NewGridValid(rows);
      Ok(Grid(|rows[0]|, |rows|, TowersBefore(Flatten(rows), |rows[0]|, |rows| * |rows[0]|)))
  }

  /** `Grid::new` as the nested scan. */
  method NewGrid(lines: seq<string>) returns (r: Result<Grid>)
    ensures r == ReadGrid(lines)
  {
    var rows := NonBlankLines(lines);
    if !UniqueWidth(rows) {
      return Err("uneven row lengths");
    }
    var towers := ScanRows(rows);
    return Ok(Grid(|rows[0]|, |rows|, towers));
  }

  /** The outer loop of `Grid::new`, over the rows. */
  method ScanRows(rows: seq<string>) returns (towers: map<char, seq<Point>>)
    requires UniqueWidth(rows)
    ensures |Flatten(rows)| == |rows| * |rows[0]|
    ensures towers == TowersBefore(Flatten(rows), |rows[0]|, |rows| * |rows[0]|)
  {
    var width, height := |rows[0]|, |rows|;
    ghost var flat := Flatten(rows);
    FlattenLength(rows, width);
    towers := map[];
    var base := 0;
    for y := 0 to height
      invariant base == y * width && base <= |flat| == height * width
      invariant towers == TowersBefore(flat, width, base)
    {
      RowSlots(rows, width, y);
      towers := ScanRow(rows[y], flat, base, y, width, towers);
      base := base + width;
    }
  }

  /** The inner loop of `Grid::new` over row `y`, which starts at slot `base`. */
  method ScanRow(row: string, ghost flat: string, base: nat, y: nat, width: nat,
                 towers: map<char, seq<Point>>) returns (r: map<char, seq<Point>>)
    requires width >= 1 && |row| == width && base + width <= |flat| && base == y * width
    requires forall x :: 0 <= x < width ==> flat[base + x] == row[x]
    requires towers == TowersBefore(flat, width, base)
    ensures r == TowersBefore(flat, width, base + width)
  {
    r := towers;
    for x := 0 to width
      invariant r == TowersBefore(flat, width, base + x)
    {
      PointAtIndex(width, Point(x, y));
      var c := row[x];
      if c != '.' {
        r := r[c := (if c in r then r[c] else []) + [Point(x, y)]];
      }
    }
  }

  /** Each listed antenna is on the map, and no frequency lists a cell twice. */
  ghost predicate Valid(g: Grid)
  {
    forall c :: c in g.towers ==>
      (forall i :: 0 <= i < |g.towers[c]| ==> InBounds(g.width, g.height, g.towers[c][i])) &&
      (forall i, j :: 0 <= i < j < |g.towers[c]| ==> g.towers[c][i] != g.towers[c][j])
  }

  /** A parsed grid lists exactly the cells holding each character. */
  lemma NewGridValid(rows: seq<string>)
    requires UniqueWidth(rows)
    ensures |Flatten(rows)| == |rows| * |rows[0]|
    ensures var w, h := |rows[0]|, |rows|;
      var g := Grid(w, h, TowersBefore(Flatten(rows), w, h * w));
      Valid(g) &&
      forall c, p :: c in g.towers && p in g.towers[c] <==> InBounds(w, h, p) && c != '.' && rows[p.y][p.x] == c
  {
    var w, h := |rows[0]|, |rows|;
    var flat := Flatten(rows);
    FlattenLength(rows, w);
    var towers := TowersBefore(flat, w, h * w);
    TowersListPositions(flat, w, h * w);
    forall c, p | c in towers && p in towers[c]
      ensures InBounds(w, h, p) && c != '.' && rows[p.y][p.x] == c
    {
      ListedCell(rows, c, p);
    }
    forall c, p | InBounds(w, h, p) && c != '.' && rows[p.y][p.x] == c
      ensures c in towers && p in towers[c]
    {
      CellListed(rows, c, p);
    }
    forall c | c in towers
      ensures forall i :: 0 <= i < |towers[c]| ==> InBounds(w, h, towers[c][i])
    {
      forall i | 0 <= i < |towers[c]| ensures InBounds(w, h, towers[c][i]) {
        ListedCell(rows, c, towers[c][i]);
      }
    }
    forall c | c in towers
      ensures forall i, j :: 0 <= i < j < |towers[c]| ==> towers[c][i] != towers[c][j]
    {
      assert towers[c] == Positions(flat, w, c, h * w);
    }
  }

  lemma ListedCell(rows: seq<string>, c: char, p: Point)
    requires UniqueWidth(rows)
    requires |Flatten(rows)| == |rows| * |rows[0]|
    requires c in TowersBefore(Flatten(rows), |rows[0]|, |rows| * |rows[0]|)
    requires p in TowersBefore(Flatten(rows), |rows[0]|, |rows| * |rows[0]|)[c]
    ensures InBounds(|rows[0]|, |rows|, p) && c != '.' && rows[p.y][p.x] == c
  {
    var w, h := |rows[0]|, |rows|;
    var flat := Flatten(rows);
    TowersListPositions(flat, w, h * w);
    PositionsMember(flat, w, c, h * w, p);
    assert h * w == w * h;
    SlotRow(w, h, p);
    assert c in KindsBefore(flat, h * w);
    RowSlots(rows, w, p.y);
  }

  lemma CellListed(rows: seq<string>, c: char, p: Point)
    requires UniqueWidth(rows)
    requires InBounds(|rows[0]|, |rows|, p) && c != '.' && rows[p.y][p.x] == c
    ensures |Flatten(rows)| == |rows| * |rows[0]|
    ensures c in TowersBefore(Flatten(rows), |rows[0]|, |rows| * |rows[0]|)
    ensures p in TowersBefore(Flatten(rows), |rows[0]|, |rows| * |rows[0]|)[c]
  {
    var w, h := |rows[0]|, |rows|;
    var flat := Flatten(rows);
    FlattenIndex(rows, w);
    IndexBounds(w, h, p);
    assert flat[Index(w, p)] == c;
    assert c in KindsBefore(flat, h * w);
    TowersListPositions(flat, w, h * w);
    PositionsComplete(flat, w, c, h * w, Index(w, p));
    PointAtIndex(w, p);
  }

  /** `p` is `a` plus a whole multiple of the offset from `a` to `b`. */
  ghost predicate OnLine(a: Point, b: Point, p: Point)
  {
    exists m: int :: p == a.Add(b.Sub(a).Scale(m))
  }

  /** The antinodes of one pair: the in-bounds cells on its line. */
  ghost function LineCells(width: nat, height: nat, a: Point, b: Point): set<Point>
  {
    set x, y | 0 <= x < width && 0 <= y < height && OnLine(a, b, Point(x, y)) :: Point(x, y)
  }

  /** The cells `a + m * d` for `lo <= m <= hi`. */
  ghost function Segment(a: Point, d: Point, lo: int, hi: int): set<Point>
  {
    set m | lo <= m <= hi :: a.Add(d.Scale(m))
  }


  /** A rectangle is convex: a point of the line between two in-bounds
      points of it is in bounds. */
  lemma Convex(width: nat, height: nat, a: Point, d: Point, m1: int, m2: int, m3: int)
    requires m1 <= m2 <= m3
    requires InBounds(width, height, a.Add(d.Scale(m1))) && InBounds(width, height, a.Add(d.Scale(m3)))
    ensures InBounds(width, height, a.Add(d.Scale(m2)))
  {
    MulMonotone(m1, m2, d.x);
    MulMonotone(m2, m3, d.x);
    MulMonotone(m1, m2, d.y);
    MulMonotone(m2, m3, d.y);
  }

  /** One step along the line moves the multiple by one. */
  lemma ScaleStep(a: Point, d: Point, m: int)
    ensures a.Add(d.Scale(m)).Sub(d) == a.Add(d.Scale(m - 1))
    ensures a.Add(d.Scale(m - 1)).Add(d) == a.Add(d.Scale(m))
  {
    assert (m - 1) * d.x == m * d.x - d.x;
    assert (m - 1) * d.y == m * d.y - d.y;
  }

  /** How far the walk can still go before leaving the map, stepping by `s`. */
  function Room(width: nat, height: nat, p: Point, s: Point): int
  {
    if s.x > 0 then width - p.x
    else if s.x < 0 then p.x + 1
    else if s.y > 0 then height - p.y
    else p.y + 1
  }

  /** The closure passed to `iterate_tower_pairs`: insert both antennas, then
      walk outwards from each while on the map. */
  method AddPair(width: nat, height: nat, a: Point, b: Point, results: set<Point>) returns (r: set<Point>)
    requires InBounds(width, height, a) && InBounds(width, height, b) && a != b
    ensures r == results + LineCells(width, height, a, b)
  {
    r := results + {a, b};
    var delta := b.Sub(a);
    assert a == a.Add(delta.Scale(0)) && b == a.Add(delta.Scale(1));
    var x := a.Sub(delta);
    ghost var lo := -1;
    while 0 <= x.x && 0 <= x.y && x.x < width && x.y < height
      invariant x == a.Add(delta.Scale(lo)) && lo <= -1
      invariant r == results + Segment(a, delta, lo + 1, 1)
      invariant forall m :: lo < m <= 1 ==> InBounds(width, height, a.Add(delta.Scale(m)))
      decreases Room(width, height, x, Point(-delta.x, -delta.y))
    {
      assert Segment(a, delta, lo, 1) == Segment(a, delta, lo + 1, 1) + {x};
      r := r + {x};
      ScaleStep(a, delta, lo);
      x := x.Sub(delta);
      lo := lo - 1;
    }
    var y := b.Add(delta);
    ghost var hi := 2;
    while 0 <= y.x && 0 <= y.y && y.x < width && y.y < height
      invariant y == a.Add(delta.Scale(hi)) && hi >= 2
      invariant r == results + Segment(a, delta, lo + 1, hi - 1)
      invariant forall m :: lo < m < hi ==> InBounds(width, height, a.Add(delta.Scale(m)))
      decreases Room(width, height, y, delta)
    {
      assert Segment(a, delta, lo + 1, hi) == Segment(a, delta, lo + 1, hi - 1) + {y};
      r := r + {y};
      ScaleStep(a, delta, hi + 1);
      y := y.Add(delta);
      hi := hi + 1;
    }
    SegmentIsLine(width, height, a, b, lo, hi);
  }

  /** Between the first cells off the map on either side, the segment is
      the whole in-bounds part of the line. */
  lemma SegmentIsLine(width: nat, height: nat, a: Point, b: Point, lo: int, hi: int)
    requires lo < 0 && hi > 1
    requires !InBounds(width, height, a.Add(b.Sub(a).Scale(lo)))
    requires !InBounds(width, height, a.Add(b.Sub(a).Scale(hi)))
    requires forall m :: lo < m < hi ==> InBounds(width, height, a.Add(b.Sub(a).Scale(m)))
    ensures Segment(a, b.Sub(a), lo + 1, hi - 1) == LineCells(width, height, a, b)
  {
    var d := b.Sub(a);
    forall p | p in Segment(a, d, lo + 1, hi - 1) ensures p in LineCells(width, height, a, b) {
      var m :| lo + 1 <= m <= hi - 1 && p == a.Add(d.Scale(m));
      assert OnLine(a, b, p);
      assert p == Point(p.x, p.y);
    }
    forall p | p in LineCells(width, height, a, b) ensures p in Segment(a, d, lo + 1, hi - 1) {
      var m :| p == a.Add(d.Scale(m));
      assert InBounds(width, height, a.Add(d.Scale(0)));
      if m <= lo {
        Convex(width, height, a, d, m, lo, 0);
      } else if m >= hi {
        Convex(width, height, a, d, 0, hi, m);
      }
    }
  }

  /** The antinodes of one frequency: every unordered pair of its antennas. */
  ghost function KindCells(width: nat, height: nat, towers: seq<Point>): set<Point>
  {
    set x, y | 0 <= x < width && 0 <= y < height &&
      (exists i, j :: 0 <= i < j < |towers| && OnLine(towers[i], towers[j], Point(x, y))) :: Point(x, y)
  }

  /** The pairs (i, j), i < j, that come before (i0, j0) in the loop order. */
  ghost function PairsBefore(width: nat, height: nat, towers: seq<Point>, i0: int, j0: int): set<Point>
  {
    set x, y | 0 <= x < width && 0 <= y < height &&
      (exists i, j :: 0 <= i < j < |towers| && (i < i0 || (i == i0 && j < j0)) &&
                      OnLine(towers[i], towers[j], Point(x, y))) :: Point(x, y)
  }

  /** Adding pair (i0, j0) to what came before it. */
  lemma PairsBeforeStep(width: nat, height: nat, towers: seq<Point>, i0: int, j0: int)
    requires 0 <= i0 < j0 < |towers|
    ensures PairsBefore(width, height, towers, i0, j0 + 1) ==
      PairsBefore(width, height, towers, i0, j0) + LineCells(width, height, towers[i0], towers[j0])
  {
    var before := PairsBefore(width, height, towers, i0, j0);
    var after := PairsBefore(width, height, towers, i0, j0 + 1);
    var line := LineCells(width, height, towers[i0], towers[j0]);
    forall p | p in after ensures p in before + line {
      var i, j :| 0 <= i < j < |towers| && (i < i0 || (i == i0 && j < j0 + 1)) && OnLine(towers[i], towers[j], p);
      if i == i0 && j == j0 {
        assert p == Point(p.x, p.y);
      } else {
        assert p == Point(p.x, p.y);
      }
    }
    forall p | p in before + line ensures p in after {
      assert p == Point(p.x, p.y);
    }
  }

  /** `PairsBeforeStep` on top of the cells found for earlier frequencies. */
  lemma PairsAdded(width: nat, height: nat, towers: seq<Point>, i0: int, j0: int, results: set<Point>)
    requires 0 <= i0 < j0 < |towers|
    ensures results + PairsBefore(width, height, towers, i0, j0 + 1) ==
      (results + PairsBefore(width, height, towers, i0, j0)) + LineCells(width, height, towers[i0], towers[j0])
  {
    PairsBeforeStep(width, height, towers, i0, j0);
  }

  /** The rows of pairs sharing the first antenna `i0` are all in once `j0`
      reaches the end. */
  lemma PairsBeforeNextRow(width: nat, height: nat, towers: seq<Point>, i0: int)
    ensures PairsBefore(width, height, towers, i0, |towers|) == PairsBefore(width, height, towers, i0 + 1, i0 + 2)
  {
  }

  /** The `while let` over first antennas. */
  method AddKind(width: nat, height: nat, towers: seq<Point>, results: set<Point>) returns (r: set<Point>)
    requires forall i :: 0 <= i < |towers| ==> InBounds(width, height, towers[i])
    requires forall i, j :: 0 <= i < j < |towers| ==> towers[i] != towers[j]
    ensures r == results + KindCells(width, height, towers)
  {
    r := results;
    for i := 0 to |towers|
      invariant r == results + PairsBefore(width, height, towers, i, i + 1)
    {
      r := AddPartners(width, height, towers, i, results, r);
      PairsBeforeNextRow(width, height, towers, i);
    }
    assert PairsBefore(width, height, towers, |towers|, |towers| + 1) == KindCells(width, height, towers);
  }

  /** The inner loop: pair antenna `i` with every later one. */
  method AddPartners(width: nat, height: nat, towers: seq<Point>, i: nat, results: set<Point>,
                     sofar: set<Point>) returns (r: set<Point>)
    requires forall k :: 0 <= k < |towers| ==> InBounds(width, height, towers[k])
    requires forall k, l :: 0 <= k < l < |towers| ==> towers[k] != towers[l]
    requires i < |towers| && sofar == results + PairsBefore(width, height, towers, i, i + 1)
    ensures r == results + PairsBefore(width, height, towers, i, |towers|)
  {
    r := sofar;
    for j := i + 1 to |towers|
      invariant r == results + PairsBefore(width, height, towers, i, j)
    {
      PairsAdded(width, height, towers, i, j, results);
      r := AddPair(width, height, towers[i], towers[j], r);
    }
  }

  /** Every antinode of the map: a cell on the line of some pair of one frequency. */
  ghost function Antinodes(g: Grid): set<Point>
  {
    set x, y | 0 <= x < g.width && 0 <= y < g.height &&
      (exists c :: c in g.towers && Point(x, y) in KindCells(g.width, g.height, g.towers[c])) :: Point(x, y)
  }

  /** Antinodes of the frequencies in `kinds`. */
  ghost function AntinodesOf(g: Grid, kinds: set<char>): set<Point>
  {
    set x, y | 0 <= x < g.width && 0 <= y < g.height &&
      (exists c :: c in kinds && c in g.towers && Point(x, y) in KindCells(g.width, g.height, g.towers[c])) :: Point(x, y)
  }

  lemma AntinodesOfStep(g: Grid, kinds: set<char>, c: char)
    requires c in g.towers
    ensures AntinodesOf(g, kinds + {c}) == AntinodesOf(g, kinds) + KindCells(g.width, g.height, g.towers[c])
  {
    forall p | p in KindCells(g.width, g.height, g.towers[c]) ensures p in AntinodesOf(g, kinds + {c}) {
      assert p == Point(p.x, p.y);
    }
    forall p | p in AntinodesOf(g, kinds + {c}) ensures p in AntinodesOf(g, kinds) + KindCells(g.width, g.height, g.towers[c]) {
      assert p == Point(p.x, p.y);
    }
  }

  /** `iterate_tower_pairs` with the antinode closure: one frequency at a time. */
  method CollectAntinodes(g: Grid) returns (results: set<Point>)
    requires Valid(g)
    ensures results == Antinodes(g)
  {
    results := {};
    var kinds := g.towers.Keys;
    ghost var done: set<char> := {};
    while kinds != {}
      invariant kinds + done == g.towers.Keys && kinds !! done
      invariant results == AntinodesOf(g, done)
      decreases |kinds|
    {
      var c :| c in kinds;
      results := AddFrequency(g, done, c, results);
      kinds := kinds - {c};
      done := done + {c};
    }
    AntinodesOfAll(g, done);
  }

  /** One frequency's pairs: its cells join those of the frequencies done. */
  method AddFrequency(g: Grid, ghost done: set<char>, c: char, results: set<Point>) returns (r: set<Point>)
    requires Valid(g) && c in g.towers && results == AntinodesOf(g, done)
    ensures r == AntinodesOf(g, done + {c})
  {
    AntinodesOfStep(g, done, c);
    r := AddKind(g.width, g.height, g.towers[c], results);
  }

  /** The antinodes of every frequency are all the antinodes. */
  lemma AntinodesOfAll(g: Grid, kinds: set<char>)
    requires kinds == g.towers.Keys
    ensures AntinodesOf(g, kinds) == Antinodes(g)
  {
  }

  /** The solver: the number of distinct antinode cells. */
  method Solve(lines: seq<string>) returns (r: Result<nat>)
    ensures r.Ok? <==> ReadGrid(lines).Ok?
    ensures r.Ok? ==> r.value == |Antinodes(ReadGrid(lines).value)|
  {
    var grid := NewGrid(lines);
    if grid.Err? {
      return Err(grid.msg);
    }
    var results := CollectAntinodes(grid.value);
    return Ok(|results|);
  }
}
