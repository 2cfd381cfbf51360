/** Garden groups, part two: a region's price is its area times its number
    of straight sides. `visit` records every fenced side of a cell as one
    unit of fence, filed under its direction and the line it lies on (the
    fence index) at its position along that line (the fence location);
    `solve` sorts the positions of each line and counts the runs of
    neighbouring positions. The map, the marks and the regions are those
    of part one. */
module Day12b {
  import opened Common
  import opened Grid2D
  import opened Text
  import opened Sorting
  import opened Day12a

  /** One unit of fence: side `dir` of a cell, on line `index`, at position
      `location` along that line. */
  datatype FenceUnit = FenceUnit(dir: Direction, index: nat, location: nat)

  /** The fences recorded so far: direction, then line, then the positions
      in the order they were pushed. */
  type SideMap = map<Direction, map<nat, seq<nat>>>

  /** The position of a direction's side in `Sides` order. */
  function SideNumber(d: Direction): nat
  {
    match d
    case Left => 0
    case Right => 1
    case Up => 2
    case Down => 3
  }

  /** The cell a unit of fence belongs to. */
  function Owner(e: FenceUnit): Point
  {
    match e.dir
    case Left => Point(e.index, e.location)
    case Right => Point(e.index - 1, e.location)
    case Up => Point(e.location, e.index)
    case Down => Point(e.location, e.index - 1)
  }

  /** The fence on side `k` of `p`: a left or upper side lies on the cell's
      own column or row, a right or lower side on the next one, so the two
      faces of one boundary are filed under different directions. */
  function SideFence(p: Point, k: nat): (e: FenceUnit)
    requires p.x >= 0 && p.y >= 0 && k < 4
    ensures SideNumber(e.dir) == k && Owner(e) == p
  {
    if k == 0 then FenceUnit(Left, p.x, p.y)
    else if k == 1 then FenceUnit(Right, p.x + 1, p.y)
    else if k == 2 then FenceUnit(Up, p.y, p.x)
    else FenceUnit(Down, p.y + 1, p.x)
  }

  /** The fences of sides `0 .. k - 1` of `p`: those not facing the same plant. */
  ghost function FencedBefore(m: Map, p: Point, k: nat): (r: set<FenceUnit>)
    requires Valid(m) && InBounds(m.width, m.height, p) && k <= 4
    ensures forall e :: e in r ==> Owner(e) == p
  {
    if k == 0 then {}
    else FencedBefore(m, p, k - 1) + (if Alike(m, p, Sides(p)[k - 1]) then {} else {SideFence(p, k - 1)})
  }

  /** The fences of the off-map sides `k .. 3` of `p`, which `visit` records first. */
  ghost function OffMapFences(m: Map, p: Point, k: nat): set<FenceUnit>
    requires Valid(m) && InBounds(m.width, m.height, p) && k <= 4
    decreases 4 - k
  {
    if k == 4 then {}
    else (if InBounds(m.width, m.height, Sides(p)[k]) then {} else {SideFence(p, k)}) + OffMapFences(m, p, k + 1)
  }

  /** The fences of one cell. */
  ghost function CellFences(m: Map, p: Point): set<FenceUnit>
    requires Valid(m) && InBounds(m.width, m.height, p)
  {
    FencedBefore(m, p, 4)
  }

  /** One unit per fenced side, each in its own direction. */
  lemma {:induction false} FencedBeforeCount(m: Map, p: Point, k: nat)
    requires Valid(m) && InBounds(m.width, m.height, p) && k <= 4
    ensures |FencedBefore(m, p, k)| == FencesBefore(m, p, k)
    ensures forall e :: e in FencedBefore(m, p, k) ==> SideNumber(e.dir) < k
  {
    if k > 0 {
      FencedBeforeCount(m, p, k - 1);
      assert SideFence(p, k - 1) !in FencedBefore(m, p, k - 1);
    }
  }

  /** A cell has as many units of fence as part one counts fenced sides. */
  lemma CellFencesCount(m: Map, p: Point)
    requires Valid(m) && InBounds(m.width, m.height, p)
    ensures |CellFences(m, p)| == Fences(m, p)
  {
    FencedBeforeCount(m, p, 4);
    AllSidesSeen(m, p);
  }

  /** The fences of all of `cells`. */
  ghost function RegionFences(m: Map, cells: seq<Point>): (r: set<FenceUnit>)
    requires Valid(m) && AllInBounds(m, cells)
    ensures forall e :: e in r ==> Owner(e) in cells
  {
    if cells == [] then {}
    else
      var front := cells[..|cells| - 1];
      assert forall e :: e in RegionFences(m, front) ==> Owner(e) in cells;
      RegionFences(m, front) + CellFences(m, cells[|cells| - 1])
  }

  lemma {:induction false} RegionFencesAppend(m: Map, a: seq<Point>, b: seq<Point>)
    requires Valid(m) && AllInBounds(m, a) && AllInBounds(m, b)
    ensures AllInBounds(m, a + b) && RegionFences(m, a + b) == RegionFences(m, a) + RegionFences(m, b)
    decreases |b|
  {
    if b == [] {
      assert a + b == a;
    } else {
      var front, last := b[..|b| - 1], b[|b| - 1];
      assert (a + b)[..|a + b| - 1] == a + front && (a + b)[|a + b| - 1] == last;
      RegionFencesAppend(m, a, front);
      var x, y, z := RegionFences(m, a), RegionFences(m, front), CellFences(m, last);
      assert RegionFences(m, a + b) == (x + y) + z;
      assert RegionFences(m, b) == y + z;
      assert (x + y) + z == x + (y + z);
    }
  }

  /** Different cells own different fences, so a region has exactly as many
      units of fence as its part-one perimeter. */
  lemma {:induction false} RegionFencesCount(m: Map, cells: seq<Point>)
    requires Valid(m) && AllInBounds(m, cells) && Distinct(cells)
    ensures |RegionFences(m, cells)| == FenceSum(m, cells)
  {
    if cells != [] {
      var front, last := cells[..|cells| - 1], cells[|cells| - 1];
      assert Distinct(front);
      RegionFencesCount(m, front);
      CellFencesCount(m, last);
      var a, b := RegionFences(m, front), CellFences(m, last);
      assert a !! b by {
        forall e | e in a ensures e !in b {
          assert Owner(e) in front;
        }
      }
      assert |a + b| == |a| + |b|;
    }
  }

  /** The fences that begin a side: nothing is fenced the same way just
      before them on their line. */
  ghost function Starts(fences: set<FenceUnit>): (r: set<FenceUnit>)
    ensures r <= fences
  {
    set e | e in fences && (e.location == 0 || FenceUnit(e.dir, e.index, e.location - 1) !in fences)
  }

  /** The number of straight sides of a region: one per start of a run of fence. */
  ghost function SideTotal(m: Map, cells: seq<Point>): nat
    requires Valid(m) && AllInBounds(m, cells)
  {
    |Starts(RegionFences(m, cells))|
  }

  /** A region has no more sides than units of fence. */
  lemma SidesAtMostPerimeter(m: Map, cells: seq<Point>)
    requires Valid(m) && AllInBounds(m, cells) && Distinct(cells)
    ensures SideTotal(m, cells) <= FenceSum(m, cells)
  {
    RegionFencesCount(m, cells);
    var s := RegionFences(m, cells);
    assert |s| == |Starts(s)| + |s - Starts(s)|;
  }

  /** Every unit of fence recorded in `sides`. */
  ghost function Contents(sides: SideMap): set<FenceUnit>
  {
    set d, i, l | d in sides && i in sides[d] && l in sides[d][i] :: FenceUnit(d, i, l)
  }

  /** `sides.entry(d).or_insert(..).entry(i).or_insert(..).push(l)`. */
  method Push(sides: SideMap, d: Direction, i: nat, l: nat) returns (r: SideMap)
    ensures Contents(r) == Contents(sides) + {FenceUnit(d, i, l)}
  {
    var lines: map<nat, seq<nat>> := if d in sides then sides[d] else map[];
    var list: seq<nat> := if i in lines then lines[i] else [];
    r := sides[d := lines[i := list + [l]]];
    assert FenceUnit(d, i, l) in Contents(r) by {
      assert l in r[d][i];
    }
    assert Contents(sides) <= Contents(r) by {
      forall e | e in Contents(sides) ensures e in Contents(r) {
        assert e.location in sides[e.dir][e.index];
        assert e.location in r[e.dir][e.index];
      }
    }
  }

  /** The members of a sequence. */
  function Elems(s: seq<int>): (r: set<int>)
    ensures forall x :: x in r <==> x in s
  {
    set k | 0 <= k < |s| :: s[k]
  }

  /** The positions that begin a run: the position just before is absent. */
  ghost function RunStarts(s: set<int>): set<int>
  {
    set l | l in s && Begins(s, l)
  }

  ghost predicate Begins(s: set<int>, l: int)
  {
    l - 1 !in s
  }

  /** Extending a sorted line by its next position: that position begins a
      new run exactly when it is more than one past the previous one. */
  lemma RunStartsStep(s: seq<int>, j: nat)
    requires Sorted(s) && 1 <= j < |s|
    ensures s[j] - s[j - 1] > 1 ==> s[j] !in RunStarts(Elems(s[..j]))
    ensures RunStarts(Elems(s[..j + 1])) == RunStarts(Elems(s[..j])) + (if s[j] - s[j - 1] > 1 then {s[j]} else {})
  {
    var a, b := Elems(s[..j]), Elems(s[..j + 1]);
    assert s[..j + 1] == s[..j] + [s[j]];
    assert b == a + {s[j]};
    assert s[j - 1] in a;
    forall x | x in a ensures x <= s[j - 1] {
      var k :| 0 <= k < j && s[k] == x;
    }
    var extra := if s[j] - s[j - 1] > 1 then {s[j]} else {};
    forall l ensures l in RunStarts(b) <==> l in RunStarts(a) + extra {
      if l in a {
        assert Begins(b, l) <==> Begins(a, l);
      } else if l == s[j] {
        if s[j] - s[j - 1] > 1 {
          assert s[j] !in a && Begins(b, s[j]);
        } else {
          assert !Begins(b, s[j]);
        }
      }
    }
  }

  /** The runs of a line, counted: one more exactly at a gap. */
  lemma RunCountStep(s: seq<int>, j: nat)
    requires Sorted(s) && 1 <= j < |s|
    ensures |RunStarts(Elems(s[..j + 1]))| == |RunStarts(Elems(s[..j]))| + (if s[j] - s[j - 1] > 1 then 1 else 0)
  {
    RunStartsStep(s, j);
  }

  /** A single position is one run. */
  lemma RunCountFirst(s: seq<int>)
    requires |s| >= 1
    ensures |RunStarts(Elems(s[..1]))| == 1
  {
    assert Elems(s[..1]) == {s[0]};
    assert RunStarts({s[0]}) == {s[0]} by {
      assert Begins({s[0]}, s[0]);
    }
  }

  /** The count `solve` makes for one sorted line: one for a non-empty line
      and one more at every gap of more than one, which is its number of runs. */
  method CountRuns(list: seq<int>) returns (n: nat)
    requires Sorted(list)
    ensures n == |RunStarts(Elems(list))|
  {
    n := 0;
    var previous: Option<int> := None;
    if |list| > 0 {
      n := n + 1;
      for j := 0 to |list|
        invariant previous == (if j == 0 then None else Some(list[j - 1]))
        invariant n == (if j == 0 then 1 else |RunStarts(Elems(list[..j]))|)
      {
        var current := list[j];
        if previous.Some? {
          RunCountStep(list, j);
          if current - previous.value > 1 {
            n := n + 1;
          }
        } else {
          RunCountFirst(list);
        }
        previous := Some(current);
      }
      assert list[..|list|] == list;
    }
  }

  /** The fences of `fences` on line `i` of direction `d`... */
  ghost function OnLines(fences: set<FenceUnit>, d: Direction, lines: set<nat>): set<FenceUnit>
  {
    set e | e in fences && e.dir == d && e.index in lines
  }

  /** ... and those in directions `ds`. */
  ghost function InDirections(fences: set<FenceUnit>, ds: set<Direction>): set<FenceUnit>
  {
    set e | e in fences && e.dir in ds
  }

  /** The units of fence at positions `ls` of line `i` of direction `d`. */
  ghost function Units(d: Direction, i: nat, ls: set<int>): set<FenceUnit>
  {
    set l: nat | l in ls :: FenceUnit(d, i, l)
  }

  lemma {:induction false} UnitsCount(d: Direction, i: nat, ls: set<int>)
    requires forall l :: l in ls ==> l >= 0
    ensures |Units(d, i, ls)| == |ls|
    decreases |ls|
  {
    if ls != {} {
      var naturals: set<nat> := set l: nat | l in ls;
      assert naturals == ls;
      var l :| l in naturals;
      UnitsCount(d, i, ls - {l});
      assert Units(d, i, ls) == Units(d, i, ls - {l}) + {FenceUnit(d, i, l)};
    }
  }

  /** On one line, the starts of the recorded fences are the run starts of
      the line's positions. */
  lemma LineStarts(sides: SideMap, d: Direction, i: nat)
    requires d in sides && i in sides[d]
    ensures |OnLines(Starts(Contents(sides)), d, {i})| == |RunStarts(Elems(sides[d][i]))|
  {
    var c := Contents(sides);
    var ls := Elems(sides[d][i]);
    forall e | e in OnLines(Starts(c), d, {i}) ensures e in Units(d, i, RunStarts(ls)) {
      assert e.location in ls;
      if e.location > 0 {
        assert FenceUnit(d, i, e.location - 1) !in c;
        assert e.location - 1 !in sides[d][i];
      }
      assert Begins(ls, e.location);
    }
    forall e | e in Units(d, i, RunStarts(ls)) ensures e in OnLines(Starts(c), d, {i}) {
      assert e in c;
      if e.location > 0 {
        assert e.location - 1 !in sides[d][i];
      }
    }
    assert OnLines(Starts(c), d, {i}) == Units(d, i, RunStarts(ls));
    UnitsCount(d, i, RunStarts(ls));
  }

  /** A sorted copy of a line has the same positions. */
  lemma SortedElems(list: seq<nat>)
    ensures Elems(Sort(list)) == Elems(list)
  {
    var sorted := Sort(list);
    forall x ensures x in sorted <==> x in list {
      assert x in sorted <==> x in multiset(sorted);
      assert x in list <==> x in multiset(list);
    }
  }

  /** Counting line `i` of direction `d` after lines `done` adds that line's starts. */
  lemma OnLinesAdd(fences: set<FenceUnit>, d: Direction, done: set<nat>, i: nat)
    requires i !in done
    ensures |OnLines(fences, d, done + {i})| == |OnLines(fences, d, done)| + |OnLines(fences, d, {i})|
  {
    var a, b := OnLines(fences, d, done), OnLines(fences, d, {i});
    assert OnLines(fences, d, done + {i}) == a + b;
    assert a !! b;
  }

  /** Counting direction `d`, line by line, after directions `done` adds all of its starts. */
  lemma DirectionAdd(sides: SideMap, done: set<Direction>, d: Direction)
    requires d in sides && d !in done
    ensures var starts := Starts(Contents(sides));
      |InDirections(starts, done + {d})| == |InDirections(starts, done)| + |OnLines(starts, d, sides[d].Keys)|
  {
    var starts := Starts(Contents(sides));
    var a, b := InDirections(starts, done), OnLines(starts, d, sides[d].Keys);
    forall e | e in InDirections(starts, done + {d}) ensures e in a + b {
      if e.dir == d {
        assert e.location in sides[d][e.index];
      }
    }
    assert InDirections(starts, done + {d}) == a + b;
    assert a !! b;
  }

  /** Every recorded fence is filed under a direction of the map. */
  lemma AllDirections(sides: SideMap)
    ensures InDirections(Starts(Contents(sides)), sides.Keys) == Starts(Contents(sides))
  {
  }

  /** The part of `solve` after each visit: every line of every direction,
      in whatever order the hash maps yield them, is sorted and its runs
      counted. The total is the number of starts among the recorded fences. */
  method CountSides(sides: SideMap) returns (perimeter: nat)
    ensures perimeter == |Starts(Contents(sides))|
  {
    ghost var starts := Starts(Contents(sides));
    perimeter := 0;
    var directions := sides.Keys;
    ghost var done: set<Direction> := {};
    while directions != {}
      invariant directions !! done && directions + done == sides.Keys
      invariant perimeter == |InDirections(starts, done)|
      decreases directions
    {
      var d :| d in directions;
      var runs := CountDirection(sides, d);
      DirectionAdd(sides, done, d);
      perimeter := perimeter + runs;
      directions := directions - {d};
      done := done + {d};
    }
    AllDirections(sides);
  }

  /** The inner loop of that count, over the lines of direction `d`. */
  method CountDirection(sides: SideMap, d: Direction) returns (perimeter: nat)
    requires d in sides
    ensures perimeter == |OnLines(Starts(Contents(sides)), d, sides[d].Keys)|
  {
    ghost var starts := Starts(Contents(sides));
    perimeter := 0;
    var lines := sides[d];
    var indices := lines.Keys;
    ghost var done: set<nat> := {};
    while indices != {}
      invariant indices !! done && indices + done == lines.Keys
      invariant perimeter == |OnLines(starts, d, done)|
      decreases indices
    {
      var i :| i in indices;
      var list := Sort(lines[i]);
      var runs := CountRuns(list);
      SortedElems(lines[i]);
      LineStarts(sides, d, i);
      OnLinesAdd(starts, d, done, i);
      perimeter := perimeter + runs;
      indices := indices - {i};
      done := done + {i};
    }
  }

  /** Side `k` of `p` as `visit` lists it: `None` off the map, otherwise the
      cell with the fence it gets if the plant differs. */
  function Candidate(m: Map, p: Point, k: nat): (r: Option<(Point, FenceUnit)>)
    requires p.x >= 0 && p.y >= 0 && k < 4
    ensures r.None? <==> !InBounds(m.width, m.height, Sides(p)[k])
    ensures r.Some? ==> r.value == (Sides(p)[k], SideFence(p, k))
  {
    if InBounds(m.width, m.height, Sides(p)[k]) then Some((Sides(p)[k], SideFence(p, k))) else None
  }

  /** The four sides of `p` in `visit`'s order. */
  function Candidates(m: Map, p: Point): (r: seq<Option<(Point, FenceUnit)>>)
    requires p.x >= 0 && p.y >= 0
    ensures |r| == 4 && forall k :: 0 <= k < 4 ==> r[k] == Candidate(m, p, k)
  {
    [Candidate(m, p, 0), Candidate(m, p, 1), Candidate(m, p, 2), Candidate(m, p, 3)]
  }

  /** `visit`: marks `p`, records the fences of its off-map sides, then for
      each side on the map either recurses (same plant, unmarked) or records
      a fence (other plant). It marks the same cells as part one's visit,
      returns their number, and adds exactly their fences to `sides`. */
  method Visit(m: Map, p: Point, visited: array<bool>, sides: SideMap)
    returns (area: nat, sides': SideMap, ghost order: seq<Point>, ghost parent: seq<nat>)
    requires Valid(m) && visited.Length == |m.data| && InBounds(m.width, m.height, p)
    requires !Marked(m, visited[..], p)
    modifies visited
    decreases Unvisited(visited[..]), 0
    ensures Visited(m, p, old(visited[..]), visited[..], order, parent)
    ensures area == |order| && Contents(sides') == Contents(sides) + RegionFences(m, order)
  {
    ghost var entry := visited[..];
    IndexBounds(m.width, m.height, p);
    var i := p.y * m.width + p.x;
    visited[i] := true;
    var symbol := m.data[i];
    area := 1;
    sides' := sides;
    var possible;
    possible, sides' := OffMapSides(m, p, sides);
    order, parent := [p], [0];
    assert visited[..] == entry[i := true];
    MarkRoot(m, p, entry, visited[..]);
    GatherStart(m, p, entry, visited[..], sides, sides');
    for k := 0 to 4
      invariant Gathering(m, p, entry, visited[..], order, parent, k, area, sides, sides')
    {
      GrownFewer(entry, visited[..], i);
      area, sides', order, parent := VisitSide(m, p, symbol, possible[k], k, visited, entry, area, sides, sides', order, parent);
    }
    GatherEnd(m, p, entry, visited[..], order, parent, area, sides, sides');
  }

  /** The four checks at the top of `visit`, which build its array of
      candidates: each side off the map has its fence recorded, and each side
      on the map becomes a candidate. */
  method OffMapSides(m: Map, p: Point, sides: SideMap)
    returns (possible: seq<Option<(Point, FenceUnit)>>, sides': SideMap)
    requires Valid(m) && InBounds(m.width, m.height, p)
    ensures possible == Candidates(m, p)
    ensures Contents(sides') == Contents(sides) + OffMapFences(m, p, 0)
  {
    sides' := sides;
    var left, right, up, down;
    left, sides' := CheckSide(m, p, 0, sides, sides');
    right, sides' := CheckSide(m, p, 1, sides, sides');
    up, sides' := CheckSide(m, p, 2, sides, sides');
    down, sides' := CheckSide(m, p, 3, sides, sides');
    possible := [left, right, up, down];
    OffMapSplit(m, p, 4);
  }

  /** One of those checks, for side `k`: the candidate when the side is on
      the map, otherwise `None` and its fence pushed. */
  method CheckSide(m: Map, p: Point, k: nat, ghost entrySides: SideMap, sides: SideMap)
    returns (candidate: Option<(Point, FenceUnit)>, sides': SideMap)
    requires Valid(m) && InBounds(m.width, m.height, p) && k < 4
    requires Contents(sides) == Contents(entrySides) + OffMapBefore(m, p, k)
    ensures candidate == Candidate(m, p, k)
    ensures Contents(sides') == Contents(entrySides) + OffMapBefore(m, p, k + 1)
  {
    var q := Sides(p)[k];
    var fence := SideFence(p, k);
    if q.x >= 0 && q.y >= 0 && q.x < m.width && q.y < m.height {
      candidate, sides' := Some((q, fence)), sides;
    } else {
      sides' := Push(sides, fence.dir, fence.index, fence.location);
      candidate := None;
    }
  }

  /** The fences of the off-map sides `0 .. j - 1` of `p`. */
  ghost function OffMapBefore(m: Map, p: Point, j: nat): set<FenceUnit>
    requires Valid(m) && InBounds(m.width, m.height, p) && j <= 4
  {
    if j == 0 then {}
    else OffMapBefore(m, p, j - 1) + (if InBounds(m.width, m.height, Sides(p)[j - 1]) then {} else {SideFence(p, j - 1)})
  }

  lemma {:induction false} OffMapSplit(m: Map, p: Point, k: nat)
    requires Valid(m) && InBounds(m.width, m.height, p) && k <= 4
    ensures OffMapBefore(m, p, k) + OffMapFences(m, p, k) == OffMapFences(m, p, 0)
  {
    if k > 0 {
      OffMapSplit(m, p, k - 1);
    }
  }

  /** The state of `visit` at `p` after looking at sides `0 .. k - 1`: the
      marks are as in part one, and `sides` holds the fences it was given,
      the fences of the sides seen so far, those of the off-map sides still
      to come (recorded up front) and those of the cells marked by recursion. */
  ghost predicate Gathering(m: Map, p: Point, entry: seq<bool>, v: seq<bool>, order: seq<Point>, parent: seq<nat>,
                            k: nat, area: nat, entrySides: SideMap, sides: SideMap)
  {
    Marking(m, p, entry, v, order, parent, k) && area == |order| &&
    Contents(sides) == Contents(entrySides) + FencedBefore(m, p, k) + OffMapFences(m, p, k) + RegionFences(m, order[1..])
  }

  /** One turn of the loop over the possible neighbours in `visit`. */
  method VisitSide(m: Map, p: Point, symbol: char, candidate: Option<(Point, FenceUnit)>, k: nat, visited: array<bool>,
                   ghost entry: seq<bool>, area: nat, ghost entrySides: SideMap, sides: SideMap,
                   ghost order: seq<Point>, ghost parent: seq<nat>)
    returns (area': nat, sides': SideMap, ghost order': seq<Point>, ghost parent': seq<nat>)
    requires Gathering(m, p, entry, visited[..], order, parent, k, area, entrySides, sides)
    requires k < 4 && candidate == Candidate(m, p, k) && symbol == Symbol(m, p)
    modifies visited
    decreases Unvisited(visited[..]), 1
    ensures Gathering(m, p, entry, visited[..], order', parent', k + 1, area', entrySides, sides')
  {
    area', sides', order', parent' := area, sides, order, parent;
    match candidate
    case None =>
      GatherSkipped(m, p, entry, visited[..], order, parent, k, area, entrySides, sides);
    case Some((q, fence)) =>
      IndexBounds(m.width, m.height, q);
      var other := q.y * m.width + q.x;
      assert q == Sides(p)[k] && fence == SideFence(p, k) && Symbol(m, q) == m.data[other];
      if symbol == m.data[other] {
        if !visited[other] {
          ghost var before := visited[..];
          assert !Marked(m, before, q);
          var childArea;
          ghost var childOrder, childParent;
          childArea, sides', childOrder, childParent := Visit(m, q, visited, sides);
          area' := area + childArea;
          order', parent' := order + childOrder, parent + Graft(childParent, |order|);
          GatherJoined(m, p, entry, before, visited[..], order, parent, childOrder, childParent, k,
                       area, childArea, entrySides, sides, sides');
        } else {
          GatherSkipped(m, p, entry, visited[..], order, parent, k, area, entrySides, sides);
        }
      } else {
        sides' := Push(sides, fence.dir, fence.index, fence.location);
        GatherFence(m, p, entry, visited[..], order, parent, k, area, entrySides, sides, sides');
      }
  }

  /** Marking `p` alone starts a visit from `p`. */
  lemma MarkRoot(m: Map, p: Point, entry: seq<bool>, v: seq<bool>)
    requires Valid(m) && InBounds(m.width, m.height, p) && |entry| == |m.data| && !Marked(m, entry, p)
    requires 0 <= Index(m.width, p) < |entry| && v == entry[Index(m.width, p) := true]
    ensures Marking(m, p, entry, v, [p], [0], 0)
  {
    forall j | 0 <= j < |v| && v[j] && !entry[j] ensures PointAt(m.width, j) in [p] {
      PointAtIndex(m.width, p);
    }
  }

  /** Visit starts gathering with only its off-map fences recorded. */
  lemma GatherStart(m: Map, p: Point, entry: seq<bool>, v: seq<bool>, entrySides: SideMap, sides: SideMap)
    requires Marking(m, p, entry, v, [p], [0], 0)
    requires Contents(sides) == Contents(entrySides) + OffMapFences(m, p, 0)
    ensures Gathering(m, p, entry, v, [p], [0], 0, 1, entrySides, sides)
  {
    assert [p][1..] == [];
    assert FencedBefore(m, p, 0) == {};
  }

  /** After all four sides, gathering is a finished visit. */
  lemma GatherEnd(m: Map, p: Point, entry: seq<bool>, v: seq<bool>, order: seq<Point>, parent: seq<nat>,
                  area: nat, entrySides: SideMap, sides: SideMap)
    requires Gathering(m, p, entry, v, order, parent, 4, area, entrySides, sides)
    ensures Visited(m, p, entry, v, order, parent)
    ensures area == |order| && Contents(sides) == Contents(entrySides) + RegionFences(m, order)
  {
    RootFenceUnits(m, order);
  }

  /** A side that is off the map, or a same-plant side already marked, adds
      no fence. */
  lemma GatherSkipped(m: Map, p: Point, entry: seq<bool>, v: seq<bool>, order: seq<Point>, parent: seq<nat>,
                      k: nat, area: nat, entrySides: SideMap, sides: SideMap)
    requires Gathering(m, p, entry, v, order, parent, k, area, entrySides, sides) && k < 4
    requires var q := Sides(p)[k];
      (!InBounds(m.width, m.height, q) || Alike(m, p, q)) && (Alike(m, p, q) ==> Marked(m, v, q))
    ensures Gathering(m, p, entry, v, order, parent, k + 1, area, entrySides, sides)
  {
    SideSkipped(m, p, entry, v, order, parent, k);
    SideStep(m, p, k);
  }

  /** A side towards another plant has its fence pushed. */
  lemma GatherFence(m: Map, p: Point, entry: seq<bool>, v: seq<bool>, order: seq<Point>, parent: seq<nat>,
                    k: nat, area: nat, entrySides: SideMap, sides: SideMap, sides': SideMap)
    requires Gathering(m, p, entry, v, order, parent, k, area, entrySides, sides) && k < 4
    requires InBounds(m.width, m.height, Sides(p)[k]) && !Alike(m, p, Sides(p)[k])
    requires Contents(sides') == Contents(sides) + {SideFence(p, k)}
    ensures Gathering(m, p, entry, v, order, parent, k + 1, area, entrySides, sides')
  {
    SideSkipped(m, p, entry, v, order, parent, k);
    FenceAdded(m, p, order, k, Contents(entrySides), Contents(sides), Contents(sides'));
  }

  /** The fence towards another plant moves from unseen to seen. */
  lemma FenceAdded(m: Map, p: Point, order: seq<Point>, k: nat, a: set<FenceUnit>, s: set<FenceUnit>, s': set<FenceUnit>)
    requires Valid(m) && InBounds(m.width, m.height, p) && k < 4 && AllInBounds(m, order) && order != []
    requires InBounds(m.width, m.height, Sides(p)[k]) && !Alike(m, p, Sides(p)[k])
    requires s == a + FencedBefore(m, p, k) + OffMapFences(m, p, k) + RegionFences(m, order[1..])
    requires s' == s + {SideFence(p, k)}
    ensures s' == a + FencedBefore(m, p, k + 1) + OffMapFences(m, p, k + 1) + RegionFences(m, order[1..])
  {
    SideStep(m, p, k);
    var e := SideFence(p, k);
    var b, c := FencedBefore(m, p, k) + OffMapFences(m, p, k), RegionFences(m, order[1..]);
    assert FencedBefore(m, p, k + 1) + OffMapFences(m, p, k + 1) == b + {e};
    assert s' == (a + b + c) + {e} == a + (b + {e}) + c;
  }

  /** A same-plant side not yet marked: the recursive visit's cells and
      fences join those of `p`. */
  lemma GatherJoined(m: Map, p: Point, entry: seq<bool>, before: seq<bool>, after: seq<bool>,
                     order: seq<Point>, parent: seq<nat>, childOrder: seq<Point>, childParent: seq<nat>, k: nat,
                     area: nat, childArea: nat, entrySides: SideMap, sides: SideMap, sides': SideMap)
    requires Gathering(m, p, entry, before, order, parent, k, area, entrySides, sides) && k < 4
    requires InBounds(m.width, m.height, Sides(p)[k]) && Alike(m, p, Sides(p)[k])
    requires Visited(m, Sides(p)[k], before, after, childOrder, childParent)
    requires childArea == |childOrder| && Contents(sides') == Contents(sides) + RegionFences(m, childOrder)
    ensures Gathering(m, p, entry, after, order + childOrder, parent + Graft(childParent, |order|), k + 1,
                      area + childArea, entrySides, sides')
  {
    Joined(m, p, entry, before, after, order, parent, childOrder, childParent, k);
    JoinedFences(m, p, order, childOrder, k, Contents(entrySides), Contents(sides), Contents(sides'));
  }

  /** The child's fences join those recorded for `p`; the same-plant side
      itself has none. */
  lemma JoinedFences(m: Map, p: Point, order: seq<Point>, childOrder: seq<Point>, k: nat,
                     a: set<FenceUnit>, s: set<FenceUnit>, s': set<FenceUnit>)
    requires Valid(m) && InBounds(m.width, m.height, p) && k < 4
    requires InBounds(m.width, m.height, Sides(p)[k]) && Alike(m, p, Sides(p)[k])
    requires AllInBounds(m, order) && AllInBounds(m, childOrder) && order != []
    requires s == a + FencedBefore(m, p, k) + OffMapFences(m, p, k) + RegionFences(m, order[1..])
    requires s' == s + RegionFences(m, childOrder)
    ensures AllInBounds(m, (order + childOrder)[1..])
    ensures s' == a + FencedBefore(m, p, k + 1) + OffMapFences(m, p, k + 1) + RegionFences(m, (order + childOrder)[1..])
  {
    RegionFencesTail(m, order, childOrder);
    SideStep(m, p, k);
    var b := FencedBefore(m, p, k) + OffMapFences(m, p, k);
    var c, d := RegionFences(m, order[1..]), RegionFences(m, childOrder);
    assert FencedBefore(m, p, k + 1) + OffMapFences(m, p, k + 1) == b;
    assert s' == (a + b + c) + d == a + b + (c + d);
  }

  /** Looking at side `k` moves its fence, if any, from the off-map part to
      the seen part, or adds the fence towards another plant. */
  lemma SideStep(m: Map, p: Point, k: nat)
    requires Valid(m) && InBounds(m.width, m.height, p) && k < 4
    ensures var q := Sides(p)[k];
      FencedBefore(m, p, k + 1) + OffMapFences(m, p, k + 1) ==
      FencedBefore(m, p, k) + OffMapFences(m, p, k) + (if InBounds(m.width, m.height, q) && !Alike(m, p, q) then {SideFence(p, k)} else {})
  {
  }

  /** The fences of everything after the root, once a child's cells are appended. */
  lemma RegionFencesTail(m: Map, order: seq<Point>, childOrder: seq<Point>)
    requires Valid(m) && AllInBounds(m, order) && AllInBounds(m, childOrder) && order != []
    ensures AllInBounds(m, (order + childOrder)[1..])
    ensures RegionFences(m, (order + childOrder)[1..]) == RegionFences(m, order[1..]) + RegionFences(m, childOrder)
  {
    assert (order + childOrder)[1..] == order[1..] + childOrder;
    RegionFencesAppend(m, order[1..], childOrder);
  }

  /** After all four sides, the recorded fences are the root's and the rest's. */
  lemma RootFenceUnits(m: Map, order: seq<Point>)
    requires Valid(m) && AllInBounds(m, order) && order != []
    ensures FencedBefore(m, order[0], 4) + OffMapFences(m, order[0], 4) + RegionFences(m, order[1..]) == RegionFences(m, order)
  {
    var p := order[0];
    assert order == [p] + order[1..];
    RegionFencesAppend(m, [p], order[1..]);
    assert RegionFences(m, [p]) == RegionFences(m, []) + CellFences(m, p);
  }

  /** Area times number of sides, over the regions. */
  ghost function SidePrice(m: Map, regions: seq<seq<Point>>): nat
    requires Valid(m) && forall k :: 0 <= k < |regions| ==> AllInBounds(m, regions[k])
  {
    if regions == [] then 0
    else
      var r := regions[|regions| - 1];
      MulNonNegative(|r|, SideTotal(m, r));
      SidePrice(m, regions[..|regions| - 1]) + |r| * SideTotal(m, r)
  }

  /** The bulk discount never costs more: with sides in place of fence
      units, every region's price can only drop. */
  lemma {:induction false} DiscountAtMostPrice(m: Map, regions: seq<seq<Point>>)
    requires Valid(m) && forall k :: 0 <= k < |regions| ==> AllInBounds(m, regions[k]) && Distinct(regions[k])
    ensures SidePrice(m, regions) <= PriceOf(m, regions)
  {
    if regions != [] {
      var r := regions[|regions| - 1];
      DiscountAtMostPrice(m, regions[..|regions| - 1]);
      SidesAtMostPerimeter(m, r);
      MulMonotone(SideTotal(m, r), FenceSum(m, r), |r|);
    }
  }

  /** `Map::solve`: every cell not yet marked, in row-major order, starts a
      new region, whose sides are counted from the fences its visit
      recorded. The regions found partition the map, and the result is
      their total discounted price. */
  method Price(m: Map) returns (result: nat, ghost regions: seq<seq<Point>>)
    requires Valid(m)
    ensures forall k :: 0 <= k < |regions| ==> IsRegion(m, regions[k]) && AllInBounds(m, regions[k])
    ensures Partition(m, regions)
    ensures result == SidePrice(m, regions)
  {
    var visited := new bool[m.width * m.height](_ => false);
    result := 0;
    regions := [];
    var i := 0;
    ScannedStart(m, visited[..]);
    for y := 0 to m.height
      invariant i == y * m.width
      invariant Scanned(m, visited[..], regions, i)
      invariant result == SidePrice(m, regions)
    {
      result, regions := ScanRow(m, visited, y, y * m.width, result, regions);
      NextRow(y, m.width);
      i := i + m.width;
    }
    ScannedAll(m, visited[..], regions);
  }

  /** The inner loop of `solve`, over the cells of row `y`. */
  method ScanRow(m: Map, visited: array<bool>, y: nat, start: nat, result: nat, ghost regions: seq<seq<Point>>)
    returns (result': nat, ghost regions': seq<seq<Point>>)
    requires y < m.height && start == y * m.width
    requires Scanned(m, visited[..], regions, start) && result == SidePrice(m, regions)
    modifies visited
    ensures Scanned(m, visited[..], regions', start + m.width) && result' == SidePrice(m, regions')
  {
    result', regions' := result, regions;
    var i := start;
    for x := 0 to m.width
      invariant i == start + x
      invariant Scanned(m, visited[..], regions', i)
      invariant result' == SidePrice(m, regions')
    {
      result', regions' := ScanCell(m, visited, Point(x, y), i, result', regions');
      i := i + 1;
    }
  }

  /** One cell of that loop: an unmarked cell is visited with an empty fence
      map, and its region's area times its counted sides is added. */
  method ScanCell(m: Map, visited: array<bool>, p: Point, i: nat, result: nat, ghost regions: seq<seq<Point>>)
    returns (result': nat, ghost regions': seq<seq<Point>>)
    requires InBounds(m.width, m.height, p) && i == p.y * m.width + p.x
    requires Scanned(m, visited[..], regions, i) && result == SidePrice(m, regions)
    modifies visited
    ensures Scanned(m, visited[..], regions', i + 1) && result' == SidePrice(m, regions')
  {
    result', regions' := result, regions;
    IndexBounds(m.width, m.height, p);
    if !visited[i] {
      ghost var before := visited[..];
      assert !Marked(m, before, p);
      PointAtIndex(m.width, p);
      assert m.width > 0 && p == PointAt(m.width, i);
      var area, sides, order, parent := Visit(m, p, visited, map[]);
      var perimeter := CountSides(sides);
      CountedSides(m, order, sides, perimeter);
      MulNonNegative(area, perimeter);
      result' := result + area * perimeter;
      AddPricedRegion(m, before, visited[..], regions, i, order, parent);
      regions' := regions + [order];
    } else {
      ScannedSkip(m, visited[..], regions, i);
    }
  }

  /** The sides counted from a fresh visit's fence map are its region's. */
  lemma CountedSides(m: Map, order: seq<Point>, sides: SideMap, perimeter: nat)
    requires Valid(m) && AllInBounds(m, order)
    requires Contents(sides) == Contents(map[]) + RegionFences(m, order)
    requires perimeter == |Starts(Contents(sides))|
    ensures perimeter == SideTotal(m, order)
  {
    NoContents();
    assert Contents(sides) == RegionFences(m, order);
  }

  lemma NoContents()
    ensures Contents(map[]) == {}
  {
  }

  /** A newly visited region joins the scan, priced by its sides. */
  lemma AddPricedRegion(m: Map, v0: seq<bool>, v1: seq<bool>, regions: seq<seq<Point>>, i: nat,
                        order: seq<Point>, parent: seq<nat>)
    requires Scanned(m, v0, regions, i) && i < |v0| && !v0[i]
    requires m.width > 0 && Visited(m, PointAt(m.width, i), v0, v1, order, parent)
    ensures Scanned(m, v1, regions + [order], i + 1)
    ensures SidePrice(m, regions + [order]) == SidePrice(m, regions) + |order| * SideTotal(m, order)
  {
    AddRegion(m, v0, v1, regions, i, order, parent);
    SidePriceAppend(m, regions, order);
  }

  lemma SidePriceAppend(m: Map, regions: seq<seq<Point>>, r: seq<Point>)
    requires Valid(m) && AllInBounds(m, r) && forall k :: 0 <= k < |regions| ==> AllInBounds(m, regions[k])
    ensures forall k :: 0 <= k < |regions + [r]| ==> AllInBounds(m, (regions + [r])[k])
    ensures SidePrice(m, regions + [r]) == SidePrice(m, regions) + |r| * SideTotal(m, r)
  {
    assert (regions + [r])[..|regions|] == regions;
  }

  /** `do_it`: trim the lines, read the map, and price it with the discount. */
  method Solve(lines: seq<string>) returns (r: Result<nat>, ghost regions: seq<seq<Point>>)
    ensures r.Ok? <==> ReadMap(TrimLines(lines)).Ok?
    ensures r.Ok? ==> (var m := ReadMap(TrimLines(lines)).value;
      Partition(m, regions) && (forall k :: 0 <= k < |regions| ==> IsRegion(m, regions[k])) &&
      r.value == SidePrice(m, regions) && r.value <= PriceOf(m, regions))
  {
    var parsed := ReadMap(TrimLines(lines));
    if parsed.Err? {
      return Err(parsed.msg), [];
    }
    var price;
    price, regions := Price(parsed.value);
    DiscountAtMostPrice(parsed.value, regions);
    return Ok(price), regions;
  }
}
