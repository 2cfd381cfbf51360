/** Word search: count every cell and direction (of eight) along which the
    grid spells "XMAS". */
module Day04a {
  import opened Common
  import opened Grid2D
  import opened Text

  /** The letter grid as rows of characters. */
  datatype CharGrid = CharGrid(width: nat, height: nat, rows: seq<seq<char>>)
  {
    ghost predicate Valid()
    {
      |rows| == height && forall y :: 0 <= y < height ==> |rows[y]| == width
    }
  }

  predicate SameWidths(lines: seq<string>)
  {
    forall i, j :: 0 <= i < |lines| && 0 <= j < |lines| ==> |lines[i]| == |lines[j]|
  }

  /** `Grid::new`: the set of line lengths must have exactly one element, so an
      empty input and ragged lines are both errors. */
  function NewGrid(lines: seq<string>): (r: Result<CharGrid>)
    ensures r.Ok? <==> lines != [] && SameWidths(lines)
    ensures r.Ok? ==> r.value.Valid() && r.value.rows == lines && r.value.height == |lines|
  {
    if lines == [] then Err("lines with differnt widths detected")
    else if exists i :: 0 <= i < |lines| && |lines[i]| != |lines[0]| then Err("lines with differnt widths detected")
    else Ok(CharGrid(|lines[0]|, |lines|, lines))
  }

  /** `get_at`: the character at `p`, or None off the grid. */
  function GetAt(g: CharGrid, p: Point): (r: Option<char>)
    requires g.Valid()
    ensures r.Some? <==> InBounds(g.width, g.height, p)
  {
    if 0 <= p.x && 0 <= p.y && p.x < g.width && p.y < g.height then Some(g.rows[p.y][p.x]) else None
  }

  /** The characters at `start + dir * i` for `i < n`, or None as soon as one
      of them is off the grid (the `collect::<Option<Vec<_>>>` in `is_word`). */
  function CellsAlong(g: CharGrid, start: Point, dir: Point, n: nat): Option<seq<char>>
    requires g.Valid()
  {
    if n == 0 then Some([])
    else match CellsAlong(g, start, dir, n - 1)
      case None => None
      case Some(cells) =>
        match GetAt(g, start.Add(dir.Scale(n - 1)))
        case None => None
        case Some(c) => Some(cells + [c])
  }

  predicate IsWord(g: CharGrid, start: Point, dir: Point, word: string)
    requires g.Valid()
  {
    CellsAlong(g, start, dir, |word|) == Some(word)
  }

  /** A word is found exactly when every one of its cells is on the grid and
      holds the matching letter. */
  lemma {:induction false} CellsAlongIff(g: CharGrid, start: Point, dir: Point, word: string, n: nat)
    requires g.Valid() && n <= |word|
    ensures CellsAlong(g, start, dir, n) == Some(word[..n]) <==>
      forall i :: 0 <= i < n ==> GetAt(g, start.Add(dir.Scale(i))) == Some(word[i])
  {
    if n > 0 {
      CellsAlongIff(g, start, dir, word, n - 1);
      CellsAlongLength(g, start, dir, n - 1);
      assert word[..n] == word[..n - 1] + [word[n - 1]];
      var prev := CellsAlong(g, start, dir, n - 1);
      var c := GetAt(g, start.Add(dir.Scale(n - 1)));
      if prev.Some? && c.Some? {
        assert (prev.value + [c.value])[..n - 1] == prev.value;
      }
    }
  }

  lemma {:induction false} CellsAlongLength(g: CharGrid, start: Point, dir: Point, n: nat)
    requires g.Valid()
    ensures CellsAlong(g, start, dir, n).Some? ==> |CellsAlong(g, start, dir, n).value| == n
  {
    if n > 0 {
      CellsAlongLength(g, start, dir, n - 1);
    }
  }

  lemma IsWordIff(g: CharGrid, start: Point, dir: Point, word: string)
    requires g.Valid()
    ensures IsWord(g, start, dir, word) <==>
      forall i :: 0 <= i < |word| ==> GetAt(g, start.Add(dir.Scale(i))) == Some(word[i])
  {
    CellsAlongIff(g, start, dir, word, |word|);
    assert word[..|word|] == word;
  }

  /** The eight directions, in the order the solver tries them. */
  const DIRECTIONS: seq<Point> := [
    Point(1, 0), Point(-1, 0), Point(0, 1), Point(0, -1),
    Point(1, 1), Point(1, -1), Point(-1, 1), Point(-1, -1)]

  /** Whether the `k`-th direction from (x, y) spells `word`. */
  ghost function WordHit(g: CharGrid, word: string, dirs: seq<Point>): (int, int, int) -> bool
    requires g.Valid()
  {
    (x, y, k) => 0 <= k < |dirs| && IsWord(g, Point(x, y), dirs[k], word)
  }

  /** All (x, y, direction index) triples at which `word` is spelt. */
  ghost function Occurrences(g: CharGrid, word: string, dirs: seq<Point>): set<(int, int, int)>
    requires g.Valid()
  {
    AllHits(g.width, g.height, |dirs|, WordHit(g, word, dirs))
  }

  /** The nested loops over rows, columns and directions. */
  method CountWord(g: CharGrid, word: string, dirs: seq<Point>) returns (count: nat)
    requires g.Valid()
    ensures count == |Occurrences(g, word, dirs)|
  {
    ghost var hit := WordHit(g, word, dirs);
    ghost var w, h, d := g.width, g.height, |dirs|;
    count := 0;
    ghost var found: set<(int, int, int)> := {};
    HitsStart(w, h, d, hit);
    for y := 0 to g.height
      invariant found == HitsBefore(w, h, d, hit, 0, y, 0)
      invariant count == |found|
    {
      for x := 0 to g.width
        invariant found == HitsBefore(w, h, d, hit, x, y, 0)
        invariant count == |found|
      {
        for k := 0 to |dirs|
          invariant found == HitsBefore(w, h, d, hit, x, y, k)
          invariant count == |found|
        {
          HitsStep(w, h, d, hit, x, y, k);
          if IsWord(g, Point(x, y), dirs[k], word) {
            found := found + {(x, y, k)};
            count := count + 1;
          }
        }
        HitsNextCell(w, h, d, hit, x, y);
      }
      HitsNextRow(w, h, d, hit, y);
    }
    HitsEnd(w, h, d, hit);
  }

  /** The solver: trim the lines, build the grid, count "XMAS" in all eight directions. */
  method Solve(lines: seq<string>) returns (r: Result<nat>)
    ensures r.Ok? <==> lines != [] && SameWidths(TrimLines(lines))
    ensures r.Ok? ==> r.value == |Occurrences(NewGrid(TrimLines(lines)).value, "XMAS", DIRECTIONS)|
  {
    var grid := NewGrid(TrimLines(lines));
    if grid.Err? {
      return Err(grid.msg);
    }
    var count := CountWord(grid.value, "XMAS", DIRECTIONS);
    return Ok(count);
  }
}
