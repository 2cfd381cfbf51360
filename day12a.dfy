/** Garden plots: cells growing the same plant and joined through their four
    sides form a region; a region costs its area times its perimeter, the
    number of cell sides facing the edge of the map or another plant. */
module Day12a {
  import opened Common
  import opened Grid2D
  import opened Text

  /** Plant symbols in row-major order. */
  datatype Map = Map(width: nat, height: nat, data: seq<char>)

  ghost predicate Valid(m: Map)
  {
    |m.data| == m.width * m.height
  }

  /** `Map::new`: the set of line lengths must have exactly one element, so
      there is at least one line and all lines are equally long. */
  function ReadMap(lines: seq<string>): (r: Result<Map>)
    ensures r.Ok? <==> lines != [] && SameWidth(lines)
    ensures r.Ok? ==> Valid(r.value) && r.value.width == |lines[0]| && r.value.height == |lines|
    ensures r.Ok? ==> forall p :: InBounds(r.value.width, r.value.height, p) ==> Symbol(r.value, p) == lines[p.y][p.x]
  {
    if lines == [] || !SameWidth(lines) then Err("expected all lines to the same length")
    else
      ReadMapCells(lines);
      Ok(Map(|lines[0]|, |lines|, Flatten(lines)))
  }

  lemma ReadMapCells(lines: seq<string>)
    requires lines != [] && SameWidth(lines)
    ensures Valid(Map(|lines[0]|, |lines|, Flatten(lines)))
    ensures forall p :: InBounds(|lines[0]|, |lines|, p) ==>
      0 <= Index(|lines[0]|, p) < |Flatten(lines)| && Flatten(lines)[Index(|lines[0]|, p)] == lines[p.y][p.x]
  {
    var width := |lines[0]|;
    FlattenLength(lines, width);
    assert |lines| * width == width * |lines|;
    forall p | InBounds(width, |lines|, p)
      ensures 0 <= Index(width, p) < |Flatten(lines)| && Flatten(lines)[Index(width, p)] == lines[p.y][p.x]
    {
      var y: nat := p.y;
      RowSlots(lines, width, y);
      assert Flatten(lines)[y * width + p.x] == lines[y][p.x];
    }
  }

  /** The plant at an on-map cell. */
  function Symbol(m: Map, p: Point): char
    requires Valid(m) && InBounds(m.width, m.height, p)
  {
    IndexBounds(m.width, m.height, p);
    m.data[Index(m.width, p)]
  }

  /** The four sides of a cell in the order `visit` looks at them: left,
      right, up, down. */
  function Sides(p: Point): seq<Point>
  {
    [Point(p.x - 1, p.y), Point(p.x + 1, p.y), Point(p.x, p.y - 1), Point(p.x, p.y + 1)]
  }

  lemma SidesSymmetric(p: Point, q: Point)
    ensures q in Sides(p) <==> p in Sides(q)
  {
  }

  /** `q` is on the map and grows the same plant as `p`. */
  predicate Alike(m: Map, p: Point, q: Point)
    requires Valid(m) && InBounds(m.width, m.height, p)
  {
    InBounds(m.width, m.height, q) && Symbol(m, q) == Symbol(m, p)
  }

  /** 1 when the side of `p` towards `q` needs a fence. */
  function Fence(m: Map, p: Point, q: Point): nat
    requires Valid(m) && InBounds(m.width, m.height, p)
  {
    if Alike(m, p, q) then 0 else 1
  }

  /** The fenced sides of one cell: at most four, four exactly when no side
      touches the same plant, none when all four do. */
  function Fences(m: Map, p: Point): (n: nat)
    requires Valid(m) && InBounds(m.width, m.height, p)
    ensures n <= 4
    ensures n == 4 <==> forall k :: 0 <= k < 4 ==> !Alike(m, p, Sides(p)[k])
    ensures n == 0 <==> forall k :: 0 <= k < 4 ==> Alike(m, p, Sides(p)[k])
  {
    var s := Sides(p);
    Fence(m, p, s[0]) + Fence(m, p, s[1]) + Fence(m, p, s[2]) + Fence(m, p, s[3])
  }

  predicate AllInBounds(m: Map, cells: seq<Point>)
  {
    forall k :: 0 <= k < |cells| ==> InBounds(m.width, m.height, cells[k])
  }

  /** The fenced sides of all of `cells`. */
  function FenceSum(m: Map, cells: seq<Point>): nat
    requires Valid(m) && AllInBounds(m, cells)
  {
    if cells == [] then 0 else FenceSum(m, cells[..|cells| - 1]) + Fences(m, cells[|cells| - 1])
  }

  lemma {:induction false} FenceSumAppend(m: Map, a: seq<Point>, b: seq<Point>)
    requires Valid(m) && AllInBounds(m, a) && AllInBounds(m, b)
    ensures AllInBounds(m, a + b) && FenceSum(m, a + b) == FenceSum(m, a) + FenceSum(m, b)
    decreases |b|
  {
    if b == [] {
      assert a + b == a;
    } else {
      var front := b[..|b| - 1];
      assert (a + b)[..|a + b| - 1] == a + front;
      FenceSumAppend(m, a, front);
    }
  }

  /** Sides `0 .. k - 1` of `p` (in `Sides` order) that are fenced. */
  function FencesBefore(m: Map, p: Point, k: nat): nat
    requires Valid(m) && InBounds(m.width, m.height, p) && k <= 4
  {
    if k == 0 then 0 else FencesBefore(m, p, k - 1) + Fence(m, p, Sides(p)[k - 1])
  }

  /** Sides `k .. 3` of `p` that lie off the map. */
  function OffMapFrom(m: Map, p: Point, k: nat): nat
    requires k <= 4
    decreases 4 - k
  {
    if k == 4 then 0 else (if InBounds(m.width, m.height, Sides(p)[k]) then 0 else 1) + OffMapFrom(m, p, k + 1)
  }

  ghost predicate Distinct(cells: seq<Point>)
  {
    forall i, j :: 0 <= i < j < |cells| ==> cells[i] != cells[j]
  }

  /** A spanning tree of `cells` rooted at the first: every later cell is a
      side neighbour growing the same plant as an earlier one. */
  ghost predicate Tree(m: Map, cells: seq<Point>, parent: seq<nat>)
    requires Valid(m) && AllInBounds(m, cells)
  {
    |parent| == |cells| &&
    forall i :: 0 < i < |cells| ==>
      parent[i] < i && cells[i] in Sides(cells[parent[i]]) && Alike(m, cells[parent[i]], cells[i])
  }

  /** No side neighbour growing the same plant is missing from `cells`. */
  ghost predicate Closed(m: Map, cells: seq<Point>)
    requires Valid(m) && AllInBounds(m, cells)
  {
    forall i, q :: 0 <= i < |cells| && q in Sides(cells[i]) && Alike(m, cells[i], q) ==> q in cells
  }

  /** A region: connected through same-plant sides, and closed under them. */
  ghost predicate IsRegion(m: Map, cells: seq<Point>)
  {
    Valid(m) && AllInBounds(m, cells) && cells != [] && Distinct(cells) &&
    (exists parent :: Tree(m, cells, parent)) && Closed(m, cells)
  }

  /** A region is one plant throughout. */
  lemma {:induction false} RegionIsOnePlant(m: Map, cells: seq<Point>, parent: seq<nat>, i: nat)
    requires Valid(m) && AllInBounds(m, cells) && Tree(m, cells, parent) && i < |cells|
    ensures Symbol(m, cells[i]) == Symbol(m, cells[0])
    decreases i
  {
    if i > 0 {
      RegionIsOnePlant(m, cells, parent, parent[i]);
    }
  }

  /** Two regions that share a cell hold the same cells: the regions of a
      map are determined by the map. */
  lemma RegionsUnique(m: Map, a: seq<Point>, b: seq<Point>, c: Point)
    requires IsRegion(m, a) && IsRegion(m, b) && c in a && c in b
    ensures forall q :: q in a ==> q in b
  {
    var parent :| Tree(m, a, parent);
    var i :| 0 <= i < |a| && a[i] == c;
    RootReached(m, a, parent, b, i);
    forall q | q in a ensures q in b {
      var j :| 0 <= j < |a| && a[j] == q;
      TreeCovered(m, a, parent, b, j);
    }
  }

  /** Walking up the tree from a cell of `b` stays in `b`, as far as the root. */
  lemma {:induction false} RootReached(m: Map, a: seq<Point>, parent: seq<nat>, b: seq<Point>, i: nat)
    requires Valid(m) && AllInBounds(m, a) && AllInBounds(m, b) && Tree(m, a, parent) && Closed(m, b)
    requires i < |a| && a[i] in b
    ensures a[0] in b
    decreases i
  {
    if i > 0 {
      var up := a[parent[i]];
      SidesSymmetric(up, a[i]);
      var k :| 0 <= k < |b| && b[k] == a[i];
      assert up in Sides(b[k]) && Alike(m, b[k], up);
      RootReached(m, a, parent, b, parent[i]);
    }
  }

  /** From the root, walking down the tree stays in `b`. */
  lemma {:induction false} TreeCovered(m: Map, a: seq<Point>, parent: seq<nat>, b: seq<Point>, i: nat)
    requires Valid(m) && AllInBounds(m, a) && AllInBounds(m, b) && Tree(m, a, parent) && Closed(m, b)
    requires i < |a| && a[0] in b
    ensures a[i] in b
    decreases i
  {
    if i > 0 {
      TreeCovered(m, a, parent, b, parent[i]);
      var k :| 0 <= k < |b| && b[k] == a[parent[i]];
      assert a[i] in Sides(b[k]) && Alike(m, b[k], a[i]);
    }
  }

  /** Whether cell `c` is marked in a visited vector. */
  function Marked(m: Map, v: seq<bool>, c: Point): bool
    requires Valid(m) && |v| == |m.data| && InBounds(m.width, m.height, c)
  {
    IndexBounds(m.width, m.height, c);
    v[Index(m.width, c)]
  }

  /** `b` keeps every mark of `a`. */
  ghost predicate Grown(a: seq<bool>, b: seq<bool>)
  {
    |a| == |b| && forall i :: 0 <= i < |a| && a[i] ==> b[i]
  }

  /** How many cells are still unmarked. */
  function Unvisited(v: seq<bool>): nat
  {
    if v == [] then 0 else Unvisited(v[..|v| - 1]) + (if v[|v| - 1] then 0 else 1)
  }

  /** Marking only removes unvisited cells, and marking a new one removes one. */
  lemma {:induction false} GrownFewer(a: seq<bool>, b: seq<bool>, j: nat)
    requires Grown(a, b)
    ensures Unvisited(b) <= Unvisited(a)
    ensures j < |a| && !a[j] && b[j] ==> Unvisited(b) < Unvisited(a)
    decreases |a|
  {
    if a != [] {
      var n := |a| - 1;
      GrownFewer(a[..n], b[..n], j);
    }
  }

  /** The sides of `p` that `visit` may recurse into: `None` off the map. */
  function Possible(m: Map, p: Point): (r: seq<Option<Point>>)
    ensures |r| == 4
  {
    seq(4, k requires 0 <= k < 4 => if InBounds(m.width, m.height, Sides(p)[k]) then Some(Sides(p)[k]) else None)
  }

  /** The child's tree hung under the root: its root's parent is cell 0, and
      its other parents move up by `offset`. */
  function Graft(parent: seq<nat>, offset: nat): (r: seq<nat>)
    ensures |r| == |parent|
  {
    seq(|parent|, j requires 0 <= j < |parent| => if j == 0 then 0 else parent[j] + offset)
  }

  /** `visit`: marks `p`, then recurses into every unmarked side neighbour
      with the same plant. The cells it marks, in the order it marks them,
      are `order`; they form a tree rooted at `p`, their same-plant
      neighbours are all marked on return, the area is their number and the
      perimeter their fenced sides. */
  method Visit(m: Map, p: Point, visited: array<bool>) returns (area: nat, perimeter: nat, ghost order: seq<Point>, ghost parent: seq<nat>)
    requires Valid(m) && visited.Length == |m.data| && InBounds(m.width, m.height, p)
    requires !Marked(m, visited[..], p)
    modifies visited
    decreases Unvisited(visited[..]), 0
    ensures Visited(m, p, old(visited[..]), visited[..], order, parent)
    ensures area == |order| && perimeter == FenceSum(m, order)
  {
    ghost var entry := visited[..];
    IndexBounds(m.width, m.height, p);
    var i := p.y * m.width + p.x;
    visited[i] := true;
    var symbol := m.data[i];
    area := 1;
    var possible;
    possible, perimeter := Neighbours(m, p);
    order, parent := [p], [0];
    VisitStart(m, p, entry, visited[..], i);
    for k := 0 to 4
      invariant Visiting(m, p, entry, visited[..], order, parent, k, area, perimeter)
    {
      VisitingFewer(m, p, entry, visited[..], order, parent, k);
      area, perimeter, order, parent := VisitSide(m, p, symbol, possible[k], k, visited, entry, area, perimeter, order, parent);
    }
    VisitDone(m, p, entry, visited[..], order, parent, area, perimeter);
  }

  /** The start of `visit`: the sides of `p` that lie on the map, and one
      fence counted for each side that does not. */
  method Neighbours(m: Map, p: Point) returns (possible: seq<Option<Point>>, perimeter: nat)
    requires InBounds(m.width, m.height, p)
    ensures possible == Possible(m, p) && perimeter == OffMapFrom(m, p, 0)
  {
    perimeter := 0;
    possible := [];
    if p.x >= 1 {
      possible := possible + [Some(Point(p.x - 1, p.y))];
    } else {
      perimeter := perimeter + 1;
      possible := possible + [None];
    }
    if p.x + 1 < m.width {
      possible := possible + [Some(Point(p.x + 1, p.y))];
    } else {
      perimeter := perimeter + 1;
      possible := possible + [None];
    }
    if p.y >= 1 {
      possible := possible + [Some(Point(p.x, p.y - 1))];
    } else {
      perimeter := perimeter + 1;
      possible := possible + [None];
    }
    if p.y + 1 < m.height {
      possible := possible + [Some(Point(p.x, p.y + 1))];
    } else {
      perimeter := perimeter + 1;
      possible := possible + [None];
    }
    OffMapSides(m, p);
    assert possible == Possible(m, p);
  }

  /** The off-map sides of an on-map cell, side by side. */
  lemma OffMapSides(m: Map, p: Point)
    requires InBounds(m.width, m.height, p)
    ensures OffMapFrom(m, p, 0) ==
      (if p.x >= 1 then 0 else 1) + (if p.x + 1 < m.width then 0 else 1) +
      (if p.y >= 1 then 0 else 1) + (if p.y + 1 < m.height then 0 else 1)
  {
    assert OffMapFrom(m, p, 2) ==
      (if InBounds(m.width, m.height, Sides(p)[2]) then 0 else 1) + (if InBounds(m.width, m.height, Sides(p)[3]) then 0 else 1);
  }

  /** Marking `p` alone is where the loop over its sides starts. */
  lemma VisitStart(m: Map, p: Point, entry: seq<bool>, v: seq<bool>, i: nat)
    requires Valid(m) && |entry| == |m.data| && InBounds(m.width, m.height, p)
    requires i == Index(m.width, p) && i < |entry| && !entry[i] && v == entry[i := true]
    ensures Visiting(m, p, entry, v, [p], [0], 0, 1, OffMapFrom(m, p, 0))
  {
    forall j | 0 <= j < |v| && v[j] && !entry[j] ensures PointAt(m.width, j) in [p] {
      PointAtIndex(m.width, p);
    }
  }

  /** While visiting `p`, at least `p` itself has been marked since entry. */
  lemma VisitingFewer(m: Map, p: Point, entry: seq<bool>, v: seq<bool>, order: seq<Point>, parent: seq<nat>, k: nat)
    requires Marking(m, p, entry, v, order, parent, k)
    ensures Unvisited(v) < Unvisited(entry)
  {
    IndexBounds(m.width, m.height, p);
    assert !Marked(m, entry, order[0]);
    GrownFewer(entry, v, Index(m.width, p));
  }

  /** After the four sides, the visit's marks are those `Visited` describes. */
  lemma VisitDone(m: Map, p: Point, entry: seq<bool>, v: seq<bool>, order: seq<Point>, parent: seq<nat>,
                  area: nat, perimeter: nat)
    requires Visiting(m, p, entry, v, order, parent, 4, area, perimeter)
    ensures Visited(m, p, entry, v, order, parent)
    ensures area == |order| && perimeter == FenceSum(m, order)
  {
    RootFences(m, order);
    forall k, q | 0 <= k < |order| && q in Sides(order[k]) && Alike(m, order[k], q) ensures Marked(m, v, q) {
      if k == 0 {
        var j :| 0 <= j < 4 && Sides(p)[j] == q;
      }
    }
  }

  /** After all four sides, the counted fences are those of `p`, and the
      whole order's fences are the root's plus the rest. */
  lemma RootFences(m: Map, order: seq<Point>)
    requires Valid(m) && AllInBounds(m, order) && order != []
    ensures FencesBefore(m, order[0], 4) + OffMapFrom(m, order[0], 4) + FenceSum(m, order[1..]) == FenceSum(m, order)
  {
    var p := order[0];
    assert order == [p] + order[1..];
    FenceSumAppend(m, [p], order[1..]);
    assert FenceSum(m, [p]) == FenceSum(m, []) + Fences(m, p);
    AllSidesSeen(m, p);
  }

  /** All four sides counted one by one are the cell's fences. */
  lemma AllSidesSeen(m: Map, p: Point)
    requires Valid(m) && InBounds(m.width, m.height, p)
    ensures FencesBefore(m, p, 4) == Fences(m, p)
  {
    var s := Sides(p);
    assert FencesBefore(m, p, 1) == Fence(m, p, s[0]);
    assert FencesBefore(m, p, 2) == Fence(m, p, s[0]) + Fence(m, p, s[1]);
    assert FencesBefore(m, p, 3) == Fence(m, p, s[0]) + Fence(m, p, s[1]) + Fence(m, p, s[2]);
  }

  /** What a visit from `p` leaves behind: the marks have only grown from
      `before` to `after`, the newly marked cells are exactly `order`, they
      form a tree rooted at `p`, and their same-plant neighbours are all
      marked. */
  ghost predicate Visited(m: Map, p: Point, before: seq<bool>, after: seq<bool>, order: seq<Point>, parent: seq<nat>)
  {
    Valid(m) && |before| == |m.data| && Grown(before, after) &&
    AllInBounds(m, order) && order != [] && order[0] == p && Distinct(order) && Tree(m, order, parent) &&
    (forall k :: 0 <= k < |order| ==> !Marked(m, before, order[k]) && Marked(m, after, order[k])) &&
    (forall i :: 0 <= i < |after| && after[i] && !before[i] ==> PointAt(m.width, i) in order) &&
    (forall k, q :: 0 <= k < |order| && q in Sides(order[k]) && Alike(m, order[k], q) ==> Marked(m, after, q))
  }

  /** The state of `visit` at `p` after looking at sides `0 .. k - 1`: the
      marks have only grown from `entry`, the cells marked so far form a
      tree rooted at `p`, the same-plant neighbours of the cells marked by
      recursion and of the sides already seen are marked, and the perimeter
      holds the fenced sides seen so far, the off-map sides still to come
      (counted up front) and the children's perimeters. */
  ghost predicate Visiting(m: Map, p: Point, entry: seq<bool>, v: seq<bool>, order: seq<Point>, parent: seq<nat>,
                           k: nat, area: nat, perimeter: nat)
  {
    Marking(m, p, entry, v, order, parent, k) &&
    area == |order| && perimeter == FencesBefore(m, p, k) + OffMapFrom(m, p, k) + FenceSum(m, order[1..])
  }

  /** The marks part of `Visiting`. */
  ghost predicate Marking(m: Map, p: Point, entry: seq<bool>, v: seq<bool>, order: seq<Point>, parent: seq<nat>, k: nat)
  {
    Valid(m) && InBounds(m.width, m.height, p) && |entry| == |m.data| && |v| == |m.data| && k <= 4 &&
    Grown(entry, v) && Marked(m, v, p) &&
    AllInBounds(m, order) && order != [] && order[0] == p && Distinct(order) && Tree(m, order, parent) &&
    (forall j :: 0 <= j < |order| ==> !Marked(m, entry, order[j]) && Marked(m, v, order[j])) &&
    (forall i :: 0 <= i < |v| && v[i] && !entry[i] ==> PointAt(m.width, i) in order) &&
    (forall j, q :: 0 < j < |order| && q in Sides(order[j]) && Alike(m, order[j], q) ==> Marked(m, v, q)) &&
    (forall j :: 0 <= j < k && Alike(m, p, Sides(p)[j]) ==> Marked(m, v, Sides(p)[j]))
  }

  /** The cells a recursive visit from side `k` of `p` marked, hung under `p`. */
  lemma Joined(m: Map, p: Point, entry: seq<bool>, before: seq<bool>, after: seq<bool>, order: seq<Point>, parent: seq<nat>,
               childOrder: seq<Point>, childParent: seq<nat>, k: nat)
    requires Marking(m, p, entry, before, order, parent, k) && k < 4
    requires InBounds(m.width, m.height, Sides(p)[k]) && Alike(m, p, Sides(p)[k])
    requires Visited(m, Sides(p)[k], before, after, childOrder, childParent)
    ensures Marking(m, p, entry, after, order + childOrder, parent + Graft(childParent, |order|), k + 1)
  {
    JoinedTree(m, p, entry, before, after, order, parent, childOrder, childParent, k);
    JoinedMarks(m, p, entry, before, after, order, parent, childOrder, childParent, k);
    JoinedClosed(m, p, entry, before, after, order, parent, childOrder, childParent, k);
    IndexBounds(m.width, m.height, p);
  }

  /** The joined cells are distinct and still a tree rooted at `p`. */
  lemma JoinedTree(m: Map, p: Point, entry: seq<bool>, before: seq<bool>, after: seq<bool>, order: seq<Point>, parent: seq<nat>,
                   childOrder: seq<Point>, childParent: seq<nat>, k: nat)
    requires Marking(m, p, entry, before, order, parent, k) && k < 4
    requires InBounds(m.width, m.height, Sides(p)[k]) && Alike(m, p, Sides(p)[k])
    requires Visited(m, Sides(p)[k], before, after, childOrder, childParent)
    ensures AllInBounds(m, order + childOrder) && Distinct(order + childOrder)
    ensures Tree(m, order + childOrder, parent + Graft(childParent, |order|))
  {
    var cells, parents := order + childOrder, parent + Graft(childParent, |order|);
    assert AllInBounds(m, cells);
    JoinedDistinct(m, p, entry, before, after, order, parent, childOrder, childParent, k);
    forall i | 0 < i < |cells|
      ensures parents[i] < i && cells[i] in Sides(cells[parents[i]]) && Alike(m, cells[parents[i]], cells[i])
    {
      if i > |order| {
        assert cells[i] == childOrder[i - |order|];
        assert cells[parents[i]] == childOrder[childParent[i - |order|]];
      }
    }
  }

  /** The child's cells were unmarked before its visit, the earlier ones marked. */
  lemma JoinedDistinct(m: Map, p: Point, entry: seq<bool>, before: seq<bool>, after: seq<bool>, order: seq<Point>, parent: seq<nat>,
                       childOrder: seq<Point>, childParent: seq<nat>, k: nat)
    requires Marking(m, p, entry, before, order, parent, k) && k < 4
    requires InBounds(m.width, m.height, Sides(p)[k]) && Alike(m, p, Sides(p)[k])
    requires Visited(m, Sides(p)[k], before, after, childOrder, childParent)
    ensures Distinct(order + childOrder)
  {
    var cells := order + childOrder;
    forall i, j | 0 <= i < j < |cells| ensures cells[i] != cells[j] {
      if i < |order| <= j {
        assert Marked(m, before, cells[i]) && !Marked(m, before, cells[j]);
      }
    }
  }

  /** The joined cells are exactly the cells marked since entry. */
  lemma JoinedMarks(m: Map, p: Point, entry: seq<bool>, before: seq<bool>, after: seq<bool>, order: seq<Point>, parent: seq<nat>,
                    childOrder: seq<Point>, childParent: seq<nat>, k: nat)
    requires Marking(m, p, entry, before, order, parent, k) && k < 4
    requires InBounds(m.width, m.height, Sides(p)[k]) && Alike(m, p, Sides(p)[k])
    requires Visited(m, Sides(p)[k], before, after, childOrder, childParent)
    ensures AllInBounds(m, order + childOrder)
    ensures forall j :: 0 <= j < |order + childOrder| ==>
      !Marked(m, entry, (order + childOrder)[j]) && Marked(m, after, (order + childOrder)[j])
    ensures forall i :: 0 <= i < |after| && after[i] && !entry[i] ==> PointAt(m.width, i) in order + childOrder
  {
    var cells := order + childOrder;
    assert AllInBounds(m, cells);
    forall j | 0 <= j < |cells| ensures !Marked(m, entry, cells[j]) && Marked(m, after, cells[j]) {
      IndexBounds(m.width, m.height, cells[j]);
      if j >= |order| {
        assert cells[j] == childOrder[j - |order|];
      }
    }
    forall i | 0 <= i < |after| && after[i] && !entry[i] ensures PointAt(m.width, i) in cells {
      if before[i] {
        assert PointAt(m.width, i) in order;
      } else {
        assert PointAt(m.width, i) in childOrder;
      }
    }
  }

  /** The same-plant neighbours of the joined cells below the root, and of
      sides `0 .. k` of `p`, are marked. */
  lemma JoinedClosed(m: Map, p: Point, entry: seq<bool>, before: seq<bool>, after: seq<bool>, order: seq<Point>, parent: seq<nat>,
                     childOrder: seq<Point>, childParent: seq<nat>, k: nat)
    requires Marking(m, p, entry, before, order, parent, k) && k < 4
    requires InBounds(m.width, m.height, Sides(p)[k]) && Alike(m, p, Sides(p)[k])
    requires Visited(m, Sides(p)[k], before, after, childOrder, childParent)
    ensures AllInBounds(m, order + childOrder)
    ensures var cells := order + childOrder;
      forall j, q :: 0 < j < |cells| && q in Sides(cells[j]) && Alike(m, cells[j], q) ==> Marked(m, after, q)
    ensures forall j :: 0 <= j < k + 1 && Alike(m, p, Sides(p)[j]) ==> Marked(m, after, Sides(p)[j])
  {
    var cells := order + childOrder;
    assert AllInBounds(m, cells);
    forall j, q | 0 < j < |cells| && q in Sides(cells[j]) && Alike(m, cells[j], q) ensures Marked(m, after, q) {
      if j < |order| {
        assert Marked(m, before, q);
        IndexBounds(m.width, m.height, q);
      } else {
        assert cells[j] == childOrder[j - |order|];
      }
    }
    forall j | 0 <= j < k + 1 && Alike(m, p, Sides(p)[j]) ensures Marked(m, after, Sides(p)[j]) {
      if j < k {
        assert Marked(m, before, Sides(p)[j]);
        IndexBounds(m.width, m.height, Sides(p)[j]);
      }
    }
  }

  /** One turn of the loop over the possible neighbours in `visit`: a side
      with another plant adds a fence, an unmarked side with the same plant
      is visited and its area and perimeter added. */
  method VisitSide(m: Map, p: Point, symbol: char, candidate: Option<Point>, k: nat, visited: array<bool>,
                   ghost entry: seq<bool>, area: nat, perimeter: nat, ghost order: seq<Point>, ghost parent: seq<nat>)
    returns (area': nat, perimeter': nat, ghost order': seq<Point>, ghost parent': seq<nat>)
    requires Visiting(m, p, entry, visited[..], order, parent, k, area, perimeter)
    requires k < 4 && candidate == Possible(m, p)[k] && symbol == Symbol(m, p)
    modifies visited
    decreases Unvisited(visited[..]), 1
    ensures Visiting(m, p, entry, visited[..], order', parent', k + 1, area', perimeter')
  {
    area', perimeter', order', parent' := area, perimeter, order, parent;
    SideCount(m, p, k);
    match candidate
    case None =>
      SideSkipped(m, p, entry, visited[..], order, parent, k);
    case Some(q) =>
      IndexBounds(m.width, m.height, q);
      var other := q.y * m.width + q.x;
      assert q == Sides(p)[k] && Symbol(m, q) == m.data[other];
      if symbol == m.data[other] {
        if !visited[other] {
          ghost var before := visited[..];
          assert q == Sides(p)[k] && Alike(m, p, q) && !Marked(m, before, q);
          var childArea, childPerimeter, childOrder, childParent := Visit(m, q, visited);
          area' := area + childArea;
          perimeter' := perimeter + childPerimeter;
          FenceSumTail(m, order, childOrder);
          order', parent' := order + childOrder, parent + Graft(childParent, |order|);
          Joined(m, p, entry, before, visited[..], order, parent, childOrder, childParent, k);
        } else {
          SideSkipped(m, p, entry, visited[..], order, parent, k);
        }
      } else {
        perimeter' := perimeter + 1;
        SideSkipped(m, p, entry, visited[..], order, parent, k);
      }
  }

  /** The fences of everything after the root, once a child's cells are appended. */
  lemma FenceSumTail(m: Map, order: seq<Point>, childOrder: seq<Point>)
    requires Valid(m) && AllInBounds(m, order) && AllInBounds(m, childOrder) && order != []
    ensures AllInBounds(m, (order + childOrder)[1..])
    ensures FenceSum(m, (order + childOrder)[1..]) == FenceSum(m, order[1..]) + FenceSum(m, childOrder)
  {
    assert (order + childOrder)[1..] == order[1..] + childOrder;
    FenceSumAppend(m, order[1..], childOrder);
  }

  /** A side that is not recursed into leaves the marks as they are. */
  lemma SideSkipped(m: Map, p: Point, entry: seq<bool>, v: seq<bool>, order: seq<Point>, parent: seq<nat>, k: nat)
    requires Marking(m, p, entry, v, order, parent, k) && k < 4
    requires Alike(m, p, Sides(p)[k]) ==> Marked(m, v, Sides(p)[k])
    ensures Marking(m, p, entry, v, order, parent, k + 1)
  {
  }

  /** Looking at side `k` moves it from the off-map count to the fenced
      count, or adds a fence towards another plant. */
  lemma SideCount(m: Map, p: Point, k: nat)
    requires Valid(m) && InBounds(m.width, m.height, p) && k < 4
    ensures var q := Sides(p)[k];
      FencesBefore(m, p, k + 1) + OffMapFrom(m, p, k + 1) ==
      FencesBefore(m, p, k) + OffMapFrom(m, p, k) + (if InBounds(m.width, m.height, q) && !Alike(m, p, q) then 1 else 0)
  {
  }

  /** The union of the cells of the regions found so far. */
  ghost function Cells(regions: seq<seq<Point>>): set<Point>
  {
    if regions == [] then {} else Cells(regions[..|regions| - 1]) + Members(regions[|regions| - 1])
  }

  ghost function Members(cells: seq<Point>): (r: set<Point>)
    ensures forall c :: c in r <==> c in cells
  {
    set i | 0 <= i < |cells| :: cells[i]
  }

  /** No cell is in two regions. */
  ghost predicate Disjoint(regions: seq<seq<Point>>)
  {
    forall k1, k2, c :: 0 <= k1 < k2 < |regions| && c in regions[k1] ==> c !in regions[k2]
  }

  /** The regions cover exactly the cells of the map, each once. */
  ghost predicate Partition(m: Map, regions: seq<seq<Point>>)
  {
    Disjoint(regions) && forall c :: c in Cells(regions) <==> InBounds(m.width, m.height, c)
  }

  /** Area times perimeter, over the regions. */
  ghost function PriceOf(m: Map, regions: seq<seq<Point>>): nat
    requires Valid(m) && forall k :: 0 <= k < |regions| ==> AllInBounds(m, regions[k])
  {
    if regions == [] then 0
    else
      var r := regions[|regions| - 1];
      MulNonNegative(|r|, FenceSum(m, r));
      PriceOf(m, regions[..|regions| - 1]) + |r| * FenceSum(m, r)
  }

  /** `Map::solve`: every cell not yet marked, in row-major order, starts a
      new region. The regions found partition the map, and the result is
      their total price. */
  method Price(m: Map) returns (result: nat, ghost regions: seq<seq<Point>>)
    requires Valid(m)
    ensures forall k :: 0 <= k < |regions| ==> IsRegion(m, regions[k]) && AllInBounds(m, regions[k])
    ensures Partition(m, regions)
    ensures result == PriceOf(m, regions)
  {
    var visited := new bool[m.width * m.height](_ => false);
    result := 0;
    regions := [];
    var i := 0;
    ScannedStart(m, visited[..]);
    for y := 0 to m.height
      invariant i == y * m.width
      invariant Scanned(m, visited[..], regions, i)
      invariant result == PriceOf(m, regions)
    {
      result, regions := ScanRow(m, visited, y, y * m.width, result, regions);
      NextRow(y, m.width);
      i := i + m.width;
    }
    ScannedAll(m, visited[..], regions);
  }

  /** The inner loop of `Map::solve`, over row `y`. */
  method ScanRow(m: Map, visited: array<bool>, y: nat, start: nat, result: nat, ghost regions: seq<seq<Point>>)
    returns (result': nat, ghost regions': seq<seq<Point>>)
    requires y < m.height && start == y * m.width
    requires Scanned(m, visited[..], regions, start) && result == PriceOf(m, regions)
    modifies visited
    ensures Scanned(m, visited[..], regions', start + m.width) && result' == PriceOf(m, regions')
  {
    result', regions' := result, regions;
    var i := start;
    for x := 0 to m.width
      invariant i == start + x
      invariant Scanned(m, visited[..], regions', i)
      invariant result' == PriceOf(m, regions')
    {
      result', regions' := ScanCell(m, visited, Point(x, y), i, result', regions');
      i := i + 1;
    }
  }

  /** The body of the inner loop of `Map::solve`: an unmarked cell starts a
      region, whose price is added. */
  method ScanCell(m: Map, visited: array<bool>, p: Point, i: nat, result: nat, ghost regions: seq<seq<Point>>)
    returns (result': nat, ghost regions': seq<seq<Point>>)
    requires InBounds(m.width, m.height, p) && i == p.y * m.width + p.x
    requires Scanned(m, visited[..], regions, i) && result == PriceOf(m, regions)
    modifies visited
    ensures Scanned(m, visited[..], regions', i + 1) && result' == PriceOf(m, regions')
  {
    result', regions' := result, regions;
    IndexBounds(m.width, m.height, p);
    if !visited[i] {
      ghost var before := visited[..];
      UnmarkedSlot(m, before, regions, p, i);
      var area, perimeter, order, parent := Visit(m, p, visited);
      MulNonNegative(area, perimeter);
      result' := result + area * perimeter;
      AddRegion(m, before, visited[..], regions, i, order, parent);
      regions' := regions + [order];
    } else {
      ScannedSkip(m, visited[..], regions, i);
    }
  }

  /** The unmarked slot the scan has reached is the unmarked cell `p`. */
  lemma UnmarkedSlot(m: Map, v: seq<bool>, regions: seq<seq<Point>>, p: Point, i: nat)
    requires Scanned(m, v, regions, i) && InBounds(m.width, m.height, p) && i == p.y * m.width + p.x
    requires i < |v| && !v[i]
    ensures !Marked(m, v, p) && m.width > 0 && p == PointAt(m.width, i)
  {
    PointAtIndex(m.width, p);
  }

  /** What the scan of `Map::solve` keeps before slot `i`: every earlier
      slot is marked, the marks are exactly the cells of the regions found,
      which are regions and disjoint, and every marked cell's same-plant
      neighbours are marked. */
  ghost predicate Scanned(m: Map, v: seq<bool>, regions: seq<seq<Point>>, i: nat)
  {
    Valid(m) && |v| == |m.data| && i <= |v| &&
    (forall j :: 0 <= j < i ==> v[j]) &&
    (forall k :: 0 <= k < |regions| ==> AllInBounds(m, regions[k])) && AllRegions(m, regions) &&
    Disjoint(regions) &&
    (forall c :: c in Cells(regions) ==> InBounds(m.width, m.height, c)) &&
    (forall c :: InBounds(m.width, m.height, c) ==> (Marked(m, v, c) <==> c in Cells(regions))) &&
    forall c, q :: InBounds(m.width, m.height, c) && Marked(m, v, c) && q in Sides(c) && Alike(m, c, q) ==> Marked(m, v, q)
  }

  /** A visit from an unmarked cell adds one more region. */
  lemma AddRegion(m: Map, v0: seq<bool>, v1: seq<bool>, regions: seq<seq<Point>>, i: nat, order: seq<Point>, parent: seq<nat>)
    requires Scanned(m, v0, regions, i) && i < |v0| && !v0[i]
    requires m.width > 0 && Visited(m, PointAt(m.width, i), v0, v1, order, parent)
    ensures Scanned(m, v1, regions + [order], i + 1)
    ensures PriceOf(m, regions + [order]) == PriceOf(m, regions) + |order| * FenceSum(m, order)
  {
    var regions' := regions + [order];
    assert regions'[..|regions|] == regions;
    MarksMatch(m, v0, v1, regions, i, order, parent);
    NewRegion(m, v0, v1, regions, i, order, parent);
    ClosedAfter(m, v0, v1, regions, i, order, parent);
    DisjointAfter(m, v0, v1, regions, i, order, parent);
    SlotMarked(m, v0, v1, i, order[0]);
    assert AllRegions(m, regions');
    PriceAppend(m, regions, order);
    CellsAfter(m, regions, order);
  }

  /** The cells of one more region in bounds keep every cell in bounds. */
  lemma CellsAfter(m: Map, regions: seq<seq<Point>>, r: seq<Point>)
    requires AllInBounds(m, r) && forall c :: c in Cells(regions) ==> InBounds(m.width, m.height, c)
    ensures forall c :: c in Cells(regions + [r]) ==> InBounds(m.width, m.height, c)
  {
    assert (regions + [r])[..|regions|] == regions;
    forall c | c in Cells(regions + [r]) ensures InBounds(m.width, m.height, c) {
      if c !in Cells(regions) {
        var k :| 0 <= k < |r| && r[k] == c;
      }
    }
  }

  /** One more region adds its own price. */
  lemma PriceAppend(m: Map, regions: seq<seq<Point>>, r: seq<Point>)
    requires Valid(m) && AllInBounds(m, r) && forall k :: 0 <= k < |regions| ==> AllInBounds(m, regions[k])
    ensures forall k :: 0 <= k < |regions + [r]| ==> AllInBounds(m, (regions + [r])[k])
    ensures PriceOf(m, regions + [r]) == PriceOf(m, regions) + |r| * FenceSum(m, r)
  {
    assert (regions + [r])[..|regions|] == regions;
  }

  /** The visit from slot `i` marks it, so every slot up to `i` is marked. */
  lemma SlotMarked(m: Map, v0: seq<bool>, v1: seq<bool>, i: nat, p: Point)
    requires Valid(m) && m.width > 0 && |v0| == |m.data| && Grown(v0, v1) && i < |v0|
    requires (forall j :: 0 <= j < i ==> v0[j])
    requires p == PointAt(m.width, i) && InBounds(m.width, m.height, p) && Marked(m, v1, p)
    ensures forall j :: 0 <= j < i + 1 ==> v1[j]
  {
    assert v1[i];
  }

  /** After the visit the marks are still exactly the cells of the regions. */
  lemma MarksMatch(m: Map, v0: seq<bool>, v1: seq<bool>, regions: seq<seq<Point>>, i: nat, order: seq<Point>, parent: seq<nat>)
    requires Scanned(m, v0, regions, i) && i < |v0|
    requires m.width > 0 && Visited(m, PointAt(m.width, i), v0, v1, order, parent)
    ensures forall c :: InBounds(m.width, m.height, c) ==> (Marked(m, v1, c) <==> c in Cells(regions + [order]))
  {
    var regions' := regions + [order];
    assert regions'[..|regions|] == regions;
    assert Cells(regions') == Cells(regions) + Members(order);
    forall c | InBounds(m.width, m.height, c)
      ensures Marked(m, v1, c) <==> c in Cells(regions')
    {
      IndexBounds(m.width, m.height, c);
      PointAtIndex(m.width, c);
    }
  }

  /** After the visit every marked cell's same-plant neighbours are marked. */
  lemma ClosedAfter(m: Map, v0: seq<bool>, v1: seq<bool>, regions: seq<seq<Point>>, i: nat, order: seq<Point>, parent: seq<nat>)
    requires Scanned(m, v0, regions, i) && i < |v0|
    requires m.width > 0 && Visited(m, PointAt(m.width, i), v0, v1, order, parent)
    ensures forall c, q :: InBounds(m.width, m.height, c) && Marked(m, v1, c) && q in Sides(c) && Alike(m, c, q) ==> Marked(m, v1, q)
  {
    forall c, q | InBounds(m.width, m.height, c) && Marked(m, v1, c) && q in Sides(c) && Alike(m, c, q)
      ensures Marked(m, v1, q)
    {
      IndexBounds(m.width, m.height, c);
      IndexBounds(m.width, m.height, q);
      if Marked(m, v0, c) {
        assert Marked(m, v0, q);
      } else {
        PointAtIndex(m.width, c);
        var k :| 0 <= k < |order| && order[k] == c;
      }
    }
  }

  /** The new region shares no cell with the earlier ones. */
  lemma DisjointAfter(m: Map, v0: seq<bool>, v1: seq<bool>, regions: seq<seq<Point>>, i: nat, order: seq<Point>, parent: seq<nat>)
    requires Scanned(m, v0, regions, i) && i < |v0|
    requires m.width > 0 && Visited(m, PointAt(m.width, i), v0, v1, order, parent)
    ensures Disjoint(regions + [order])
  {
    var regions' := regions + [order];
    forall k1, k2, c | 0 <= k1 < k2 < |regions'| && c in regions'[k1]
      ensures c !in regions'[k2]
    {
      if k2 == |regions| {
        assert c in Cells(regions) by {
          CellsMember(regions, k1, c);
        }
        assert Marked(m, v0, c);
        assert forall k :: 0 <= k < |order| ==> order[k] != c;
      }
    }
  }

  /** The cells a visit from an unmarked cell marks form a region: their
      same-plant neighbours were unmarked before, so the visit marked them. */
  lemma NewRegion(m: Map, v0: seq<bool>, v1: seq<bool>, regions: seq<seq<Point>>, i: nat, order: seq<Point>, parent: seq<nat>)
    requires Scanned(m, v0, regions, i) && i < |v0|
    requires m.width > 0 && Visited(m, PointAt(m.width, i), v0, v1, order, parent)
    ensures IsRegion(m, order)
  {
    forall k, q | 0 <= k < |order| && q in Sides(order[k]) && Alike(m, order[k], q)
      ensures q in order
    {
      StaysUnmarked(m, v0, regions, i, order[k], q);
      assert Marked(m, v1, q);
      IndexBounds(m.width, m.height, q);
      PointAtIndex(m.width, q);
      var j := Index(m.width, q);
      assert v1[j] && !v0[j];
      assert PointAt(m.width, j) in order;
    }
  }

  /** Every one of `regions` is a region. */
  ghost predicate AllRegions(m: Map, regions: seq<seq<Point>>)
  {
    regions == [] || (AllRegions(m, regions[..|regions| - 1]) && IsRegion(m, regions[|regions| - 1]))
  }

  lemma {:induction false} AllRegionsEach(m: Map, regions: seq<seq<Point>>)
    requires AllRegions(m, regions)
    ensures forall k :: 0 <= k < |regions| ==> IsRegion(m, regions[k])
  {
    if regions != [] {
      AllRegionsEach(m, regions[..|regions| - 1]);
    }
  }

  /** During the scan, a same-plant neighbour of an unmarked cell is unmarked too. */
  lemma StaysUnmarked(m: Map, v: seq<bool>, regions: seq<seq<Point>>, i: nat, c: Point, q: Point)
    requires Scanned(m, v, regions, i) && InBounds(m.width, m.height, c) && !Marked(m, v, c)
    requires q in Sides(c) && Alike(m, c, q)
    ensures !Marked(m, v, q)
  {
    SidesSymmetric(c, q);
    assert c in Sides(q) && Alike(m, q, c);
  }

  /** A marked slot is passed over. */
  lemma ScannedSkip(m: Map, v: seq<bool>, regions: seq<seq<Point>>, i: nat)
    requires Scanned(m, v, regions, i) && i < |v| && v[i]
    ensures Scanned(m, v, regions, i + 1)
  {
  }

  /** Nothing is marked and no region found before the scan. */
  lemma ScannedStart(m: Map, v: seq<bool>)
    requires Valid(m) && |v| == |m.data| && forall j :: 0 <= j < |v| ==> !v[j]
    ensures Scanned(m, v, [], 0)
  {
    forall c | InBounds(m.width, m.height, c) ensures !Marked(m, v, c) {
      IndexBounds(m.width, m.height, c);
    }
  }

  lemma {:induction false} CellsMember(regions: seq<seq<Point>>, k: nat, c: Point)
    requires k < |regions| && c in regions[k]
    ensures c in Cells(regions)
  {
    if k < |regions| - 1 {
      CellsMember(regions[..|regions| - 1], k, c);
    }
  }

  /** Once every slot is marked, the regions cover the map. */
  lemma ScannedAll(m: Map, v: seq<bool>, regions: seq<seq<Point>>)
    requires Scanned(m, v, regions, m.height * m.width)
    ensures Partition(m, regions)
    ensures forall k :: 0 <= k < |regions| ==> IsRegion(m, regions[k]) && AllInBounds(m, regions[k])
  {
    AllRegionsEach(m, regions);
    assert m.height * m.width == |v|;
    forall c | InBounds(m.width, m.height, c) ensures c in Cells(regions) {
      IndexBounds(m.width, m.height, c);
    }
  }

  /** `do_it`: the trimmed lines as a map, and its total price. */
  method Solve(lines: seq<string>) returns (r: Result<nat>, ghost regions: seq<seq<Point>>)
    ensures r.Ok? <==> ReadMap(TrimLines(lines)).Ok?
    ensures r.Ok? ==> (var m := ReadMap(TrimLines(lines)).value;
      Partition(m, regions) && (forall k :: 0 <= k < |regions| ==> IsRegion(m, regions[k])) &&
      r.value == PriceOf(m, regions))
  {
    var parsed := ReadMap(TrimLines(lines));
    if parsed.Err? {
      return Err(parsed.msg), [];
    }
    var price;
    price, regions := Price(parsed.value);
    return Ok(price), regions;
  }
}
