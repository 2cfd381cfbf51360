/** X-MAS search: two "MAS" words crossing diagonally on their middle 'A'.
    The grid, `get_at` and `is_word` are the word-search ones. */
module Day04b {
  import opened Common
  import opened Grid2D
  import opened Text
  import opened Day04a

  /** The two directions perpendicular to `dir`. */
  function Alt1(dir: Point): Point { Point(-dir.y, dir.x) }
  function Alt2(dir: Point): Point { Point(dir.y, -dir.x) }

  /** `is_cross`: "MAS" from `start` along `dir`, and "MAS" through the
      middle cell along one of the perpendicular diagonals. */
  predicate IsCross(g: CharGrid, start: Point, dir: Point)
    requires g.Valid()
  {
    var mid := start.Add(dir);
    IsWord(g, start, dir, "MAS") &&
    (IsWord(g, mid.Sub(Alt1(dir)), Alt1(dir), "MAS") || IsWord(g, mid.Sub(Alt2(dir)), Alt2(dir), "MAS"))
  }

  /** The other half of a cross: the perpendicular word that completed it. */
  function Partner(g: CharGrid, start: Point, dir: Point): (Point, Point)
    requires g.Valid()
  {
    var mid := start.Add(dir);
    if IsWord(g, mid.Sub(Alt1(dir)), Alt1(dir), "MAS") then (mid.Sub(Alt1(dir)), Alt1(dir))
    else (mid.Sub(Alt2(dir)), Alt2(dir))
  }

  lemma MasCells(g: CharGrid, start: Point, dir: Point)
    requires g.Valid() && IsWord(g, start, dir, "MAS")
    ensures GetAt(g, start) == Some('M')
    ensures GetAt(g, start.Add(dir)) == Some('A')
    ensures GetAt(g, start.Add(dir.Scale(2))) == Some('S')
  {
    IsWordIff(g, start, dir, "MAS");
    assert GetAt(g, start.Add(dir.Scale(0))) == Some('M');
    assert start.Add(dir.Scale(0)) == start;
    assert GetAt(g, start.Add(dir.Scale(1))) == Some('A');
    assert start.Add(dir.Scale(1)) == start.Add(dir);
  }

  /** Every cross found from one diagonal is found again from its partner,
      and the partner of the partner is the original: crosses come in
      distinct pairs, which is why the solver halves its count. */
  lemma PartnerIsInvolution(g: CharGrid, start: Point, dir: Point)
    requires g.Valid() && dir != Point(0, 0) && IsCross(g, start, dir)
    ensures IsCross(g, Partner(g, start, dir).0, Partner(g, start, dir).1)
    ensures Partner(g, Partner(g, start, dir).0, Partner(g, start, dir).1) == (start, dir)
    ensures Partner(g, start, dir) != (start, dir)
  {
    var mid := start.Add(dir);
    var (s2, a) := Partner(g, start, dir);
    MasCells(g, start, dir);
    MasCells(g, s2, a);
    assert s2.Add(a) == mid;
    assert start.Add(dir.Scale(2)) == mid.Add(dir);
    assert Alt1(a) == Point(-dir.x, -dir.y) || Alt2(a) == Point(-dir.x, -dir.y);
    var back := Point(-dir.x, -dir.y);
    // Reading back along -dir from the far end would start on 'S', not 'M'.
    assert mid.Sub(back) == mid.Add(dir);
    assert !IsWord(g, mid.Sub(back), back, "MAS") by {
      if IsWord(g, mid.Sub(back), back, "MAS") {
        MasCells(g, mid.Sub(back), back);
      }
    }
    assert mid.Sub(dir) == start;
  }

  const DIAGONALS: seq<Point> := [Point(1, 1), Point(1, -1), Point(-1, 1), Point(-1, -1)]

  ghost function CrossHit(g: CharGrid, dirs: seq<Point>): (int, int, int) -> bool
    requires g.Valid()
  {
    (x, y, k) => 0 <= k < |dirs| && IsCross(g, Point(x, y), dirs[k])
  }

  ghost function Crosses(g: CharGrid, dirs: seq<Point>): set<(int, int, int)>
    requires g.Valid()
  {
    AllHits(g.width, g.height, |dirs|, CrossHit(g, dirs))
  }

  /** The nested loops over rows, columns and the four diagonals. */
  method CountCrosses(g: CharGrid, dirs: seq<Point>) returns (count: nat)
    requires g.Valid()
    ensures count == |Crosses(g, dirs)|
  {
    ghost var hit := CrossHit(g, dirs);
    ghost var w, h, d := g.width, g.height, |dirs|;
    count := 0;
    ghost var found: set<(int, int, int)> := {};
    HitsStart(w, h, d, hit);
    for y := 0 to g.height
      invariant found == HitsBefore(w, h, d, hit, 0, y, 0)
      invariant count == |found|
    {
      for x := 0 to g.width
        invariant found == HitsBefore(w, h, d, hit, x, y, 0)
        invariant count == |found|
      {
        for k := 0 to |dirs|
          invariant found == HitsBefore(w, h, d, hit, x, y, k)
          invariant count == |found|
        {
          HitsStep(w, h, d, hit, x, y, k);
          if IsCross(g, Point(x, y), dirs[k]) {
            found := found + {(x, y, k)};
            count := count + 1;
          }
        }
        HitsNextCell(w, h, d, hit, x, y);
      }
      HitsNextRow(w, h, d, hit, y);
    }
    HitsEnd(w, h, d, hit);
  }

  /** The solver: every cross is seen from both of its words, so the count is halved. */
  method Solve(lines: seq<string>) returns (r: Result<nat>)
    ensures r.Ok? <==> lines != [] && SameWidths(TrimLines(lines))
    ensures r.Ok? ==> r.value == |Crosses(NewGrid(TrimLines(lines)).value, DIAGONALS)| / 2
  {
    var grid := NewGrid(TrimLines(lines));
    if grid.Err? {
      return Err(grid.msg);
    }
    var count := CountCrosses(grid.value, DIAGONALS);
    return Ok(count / 2);
  }
}
