/** Guard patrol: the guard walks forward and turns right in front of an
    obstacle until it leaves the map; the solver counts the cells where one
    extra obstacle traps it in a loop. */
module Day06b {
  import opened Common
  import opened Grid2D
  import opened Text

  /** Where the guard stands and which way it faces. */
  datatype Guard = Guard(position: Point, direction: Direction)

  /** A row-major flag vector of one entry per cell. */
  predicate Fits(width: nat, height: nat, cells: seq<bool>)
  {
    |cells| == width * height
  }

  /** `point_is_obstacle`: the flag at `p`, and false off the map. */
  function ObstacleAt(width: nat, height: nat, cells: seq<bool>, p: Point): (r: bool)
    requires Fits(width, height, cells)
    ensures r ==> InBounds(width, height, p)
  {
    if InBounds(width, height, p) then
      IndexBounds(width, height, p);
      cells[Index(width, p)]
    else false
  }

  /** `add_obstacle` and `visit`: set the flag of one in-bounds cell. */
  function Mark(width: nat, height: nat, cells: seq<bool>, p: Point): (r: seq<bool>)
    requires Fits(width, height, cells)
    ensures Fits(width, height, r)
    ensures !InBounds(width, height, p) ==> r == cells
  {
    if InBounds(width, height, p) then
      IndexBounds(width, height, p);
      cells[Index(width, p) := true]
    else cells
  }

  /** After marking `p`, the flag of `q` is set exactly when `q` is `p` on
      the map or its flag was set before. */
  lemma MarkAt(width: nat, height: nat, cells: seq<bool>, p: Point, q: Point)
    requires Fits(width, height, cells)
    ensures ObstacleAt(width, height, Mark(width, height, cells, p), q) ==
      (InBounds(width, height, q) && (q == p || ObstacleAt(width, height, cells, q)))
  {
    if InBounds(width, height, p) && InBounds(width, height, q) {
      IndexBounds(width, height, p);
      IndexBounds(width, height, q);
      if Index(width, q) == Index(width, p) {
        IndexInjective(width, height, p, q);
      }
    }
  }

  /** One `advance`: turn right in front of an obstacle, otherwise step. The
      guard never walks onto an obstacle and moves at most one cell. */
  function NextGuard(width: nat, height: nat, cells: seq<bool>, g: Guard): (r: Guard)
    requires Fits(width, height, cells)
    ensures !ObstacleAt(width, height, cells, g.position) ==> !ObstacleAt(width, height, cells, r.position)
    ensures r.position == g.position <==> r.direction == TurnRight(g.direction)
    ensures Manhattan(r.position, g.position) <= 1
  {
    TurnsAreInverse(g.direction);
    var ahead := Step(g.position, g.direction);
    if ObstacleAt(width, height, cells, ahead) then Guard(g.position, TurnRight(g.direction))
    else Guard(ahead, g.direction)
  }

  /** The guard after `n` moves, ignoring whether it has left the map. */
  function Walk(width: nat, height: nat, cells: seq<bool>, g: Guard, n: nat): Guard
    requires Fits(width, height, cells)
  {
    if n == 0 then g else NextGuard(width, height, cells, Walk(width, height, cells, g, n - 1))
  }

  /** The guard leaves the map at some point. */
  ghost predicate Escapes(width: nat, height: nat, cells: seq<bool>, g: Guard)
    requires Fits(width, height, cells)
  {
    exists n: nat :: !InBounds(width, height, Walk(width, height, cells, g, n).position)
  }

  /** `path` is the first |path| states of the walk, none repeated. */
  ghost predicate IsWalk(width: nat, height: nat, cells: seq<bool>, g: Guard, path: seq<Guard>)
    requires Fits(width, height, cells)
  {
    |path| >= 1 &&
    (forall i :: 0 <= i < |path| ==> path[i] == Walk(width, height, cells, g, i)) &&
    (forall i, j :: 0 <= i < j < |path| ==> path[i] != path[j])
  }

  /** When the state after the last one is already on the path, the walk
      cycles through the path for ever. */
  lemma {:induction false} CycleStaysOnPath(width: nat, height: nat, cells: seq<bool>, g: Guard,
                                            path: seq<Guard>, n: nat)
    requires Fits(width, height, cells) && IsWalk(width, height, cells, g, path)
    requires NextGuard(width, height, cells, path[|path| - 1]) in path
    ensures Walk(width, height, cells, g, n) in path
  {
    if n >= |path| {
      CycleStaysOnPath(width, height, cells, g, path, n - 1);
      var prev := Walk(width, height, cells, g, n - 1);
      var k :| 0 <= k < |path| && path[k] == prev;
      if k < |path| - 1 {
        assert path[k + 1] == Walk(width, height, cells, g, k + 1);
      }
    } else {
      assert path[n] == Walk(width, height, cells, g, n);
    }
  }

  /** A cycle of in-bounds states never leaves the map. */
  lemma CycleNeverEscapes(width: nat, height: nat, cells: seq<bool>, g: Guard, path: seq<Guard>)
    requires Fits(width, height, cells) && IsWalk(width, height, cells, g, path)
    requires NextGuard(width, height, cells, path[|path| - 1]) in path
    requires forall i :: 0 <= i < |path| ==> InBounds(width, height, path[i].position)
    ensures !Escapes(width, height, cells, g)
  {
    forall n: nat ensures InBounds(width, height, Walk(width, height, cells, g, n).position) {
      CycleStaysOnPath(width, height, cells, g, path, n);
    }
  }

  /** The cells straight ahead of the recorded states: the only places where
      an extra obstacle can change the walk. */
  function Ahead(path: seq<Guard>): (r: set<Point>)
    ensures forall i :: 0 <= i < |path| ==> Step(path[i].position, path[i].direction) in r
  {
    set i | 0 <= i < |path| :: Step(path[i].position, path[i].direction)
  }

  /** An obstacle that is never straight ahead of the guard leaves the
      walk along the path as it was. */
  lemma {:induction false} WalkIgnoresOtherCells(width: nat, height: nat, cells: seq<bool>, g: Guard,
                                                 path: seq<Guard>, o: Point, n: nat)
    requires Fits(width, height, cells) && IsWalk(width, height, cells, g, path)
    requires o !in Ahead(path) && n < |path|
    ensures Walk(width, height, Mark(width, height, cells, o), g, n) == path[n]
  {
    if n > 0 {
      WalkIgnoresOtherCells(width, height, cells, g, path, o, n - 1);
      var ahead := Step(path[n - 1].position, path[n - 1].direction);
      assert ahead in Ahead(path);
      MarkAt(width, height, cells, o, ahead);
      assert path[n] == Walk(width, height, cells, g, n);
    }
  }

  /** The candidate set of the solver loses nothing: an obstacle anywhere
      else leaves the patrol's fate as it was. */
  lemma OnlyCellsAheadMatter(width: nat, height: nat, cells: seq<bool>, g: Guard,
                             path: seq<Guard>, o: Point)
    requires Fits(width, height, cells) && IsPatrol(width, height, cells, g, path)
    requires o !in Ahead(path)
    ensures Escapes(width, height, Mark(width, height, cells, o), g) == Escapes(width, height, cells, g)
  {
    var cells' := Mark(width, height, cells, o);
    assert IsPatrol(width, height, cells', g, path) by {
      SamePatrol(width, height, cells, g, path, o);
    }
    PatrolEscapes(width, height, cells, g, path);
    PatrolEscapes(width, height, cells', g, path);
  }

  /** A patrol escapes exactly when it ends off the map. */
  lemma PatrolEscapes(width: nat, height: nat, cells: seq<bool>, g: Guard, path: seq<Guard>)
    requires Fits(width, height, cells) && IsPatrol(width, height, cells, g, path)
    ensures Escapes(width, height, cells, g) <==> !InBounds(width, height, path[|path| - 1].position)
  {
    if InBounds(width, height, path[|path| - 1].position) {
      CycleNeverEscapes(width, height, cells, g, path);
    } else {
      assert !InBounds(width, height, Walk(width, height, cells, g, |path| - 1).position);
    }
  }

  /** The recorded path is also the walk with the extra obstacle, and it
      closes the same way. */
  lemma SamePatrol(width: nat, height: nat, cells: seq<bool>, g: Guard, path: seq<Guard>, o: Point)
    requires Fits(width, height, cells) && IsWalk(width, height, cells, g, path)
    requires o !in Ahead(path)
    ensures IsWalk(width, height, Mark(width, height, cells, o), g, path)
    ensures NextGuard(width, height, Mark(width, height, cells, o), path[|path| - 1]) ==
      NextGuard(width, height, cells, path[|path| - 1])
  {
    var cells' := Mark(width, height, cells, o);
    forall n | 0 <= n < |path| ensures path[n] == Walk(width, height, cells', g, n) {
      WalkIgnoresOtherCells(width, height, cells, g, path, o, n);
    }
    var last := path[|path| - 1];
    assert Step(last.position, last.direction) in Ahead(path);
    MarkAt(width, height, cells, o, Step(last.position, last.direction));
  }

  /** What `find_path` records: the walk up to the first repeat, or up to
      and including the first state off the map. */
  ghost predicate IsPatrol(width: nat, height: nat, cells: seq<bool>, g: Guard, path: seq<Guard>)
    requires Fits(width, height, cells)
  {
    IsWalk(width, height, cells, g, path) &&
    (forall i :: 0 <= i < |path| - 1 ==> InBounds(width, height, path[i].position)) &&
    (InBounds(width, height, path[|path| - 1].position) ==>
      NextGuard(width, height, cells, path[|path| - 1]) in path)
  }

  /** Every in-bounds (position, direction) state. */
  ghost function AllStates(width: nat, height: nat): set<Guard>
  {
    set x, y, d | 0 <= x < width && 0 <= y < height && d in {Up, Right, Down, Left} :: Guard(Point(x, y), d)
  }

  /** The map, the guard and the visited cells. */
  class State {
    var width: nat
    var height: nat
    var data: seq<bool>
    var guard: Guard
    var visited: seq<bool>

    ghost predicate Valid()
      reads this
    {
      Fits(width, height, data) && Fits(width, height, visited)
    }

    constructor (width: nat, height: nat, data: seq<bool>, guard: Guard, visited: seq<bool>)
      requires Fits(width, height, data) && Fits(width, height, visited)
      ensures Valid()
      ensures this.width == width && this.height == height && this.data == data
      ensures this.guard == guard && this.visited == visited
    {
      this.width := width;
      this.height := height;
      this.data := data;
      this.guard := guard;
      this.visited := visited;
    }

    /** The derived `Clone`. */
    method Clone() returns (s: State)
      requires Valid()
      ensures fresh(s) && s.Valid()
      ensures s.width == width && s.height == height && s.data == data
      ensures s.guard == guard && s.visited == visited
    {
      s := new State(width, height, data, guard, visited);
    }

    /** `add_obstacle`: only the flag of `p` changes, and nothing off the map. */
    method AddObstacle(p: Point)
      requires Valid()
      modifies this
      ensures width == old(width) && height == old(height) && Valid()
      ensures data == Mark(width, height, old(data), p)
      ensures guard == old(guard) && visited == old(visited)
    {
      if 0 <= p.x && 0 <= p.y && p.x < width && p.y < height {
        IndexBounds(width, height, p);
        data := data[p.y * width + p.x := true];
      }
    }

    /** `visit`: marks one in-bounds cell as visited. */
    method Visit(p: Point)
      requires Valid()
      modifies this
      ensures width == old(width) && height == old(height) && Valid()
      ensures visited == Mark(width, height, old(visited), p)
      ensures guard == old(guard) && data == old(data)
    {
      if 0 <= p.x && 0 <= p.y && p.x < width && p.y < height {
        IndexBounds(width, height, p);
        visited := visited[p.y * width + p.x := true];
      }
    }

    /** `advance`: turn or step, and mark the cell stepped onto. */
    method Advance()
      requires Valid()
      modifies this
      ensures width == old(width) && height == old(height) && data == old(data) && Valid()
      ensures guard == NextGuard(width, height, data, old(guard))
      ensures visited == if guard.position == old(guard.position) then old(visited)
                         else Mark(width, height, old(visited), guard.position)
    {
      var next := guard.position.Add(Delta(guard.direction));
      if ObstacleAt(width, height, data, next) {
        guard := Guard(guard.position, TurnRight(guard.direction));
      } else {
        guard := Guard(next, guard.direction);
        Visit(next);
      }
    }

    /** `find_path`: walk a copy until a state repeats (true) or the guard is
        off the map (false). The answer is exactly whether the patrol loops. */
    method FindPath() returns (isLoop: bool, path: seq<Guard>)
      requires Valid()
      ensures IsPatrol(width, height, data, guard, path)
      ensures isLoop <==> InBounds(width, height, path[|path| - 1].position)
      ensures isLoop <==> !Escapes(width, height, data, guard)
    {
      var state := Clone();
      path := [state.guard];
      var pathSet := {state.guard};
      while 0 <= state.guard.position.x && 0 <= state.guard.position.y &&
            state.guard.position.x < state.width && state.guard.position.y < state.height
        invariant state.Valid() && state.width == width && state.height == height && state.data == data
        invariant Tracked(width, height, data, guard, path, pathSet)
        invariant state.guard == path[|path| - 1]
        decreases Unseen(width, height, pathSet),
                  if InBounds(width, height, state.guard.position) then 1 else 0
      {
        TrackStep(width, height, data, guard, path, pathSet);
        state.Advance();
        if state.guard in pathSet {
          TrackedPatrol(width, height, data, guard, path, pathSet);
          return true, path;
        }
        path := path + [state.guard];
        pathSet := pathSet + {state.guard};
      }
      TrackedPatrol(width, height, data, guard, path, pathSet);
      isLoop := false;
    }
  }

  /** The on-map states not yet seen. */
  ghost function Unseen(width: nat, height: nat, seen: set<Guard>): set<Guard>
  {
    AllStates(width, height) - seen
  }

  /** What `find_path` keeps of its walk: the states so far, the set of them,
      and every state but the last on the map. */
  ghost predicate Tracked(width: nat, height: nat, cells: seq<bool>, g: Guard, path: seq<Guard>, pathSet: set<Guard>)
    requires Fits(width, height, cells)
  {
    IsWalk(width, height, cells, g, path) &&
    pathSet == (set i | 0 <= i < |path| :: path[i]) &&
    forall i :: 0 <= i < |path| - 1 ==> InBounds(width, height, path[i].position)
  }

  /** One step of `find_path` from an on-map state: a state already seen
      means the guard never leaves; otherwise the walk grows by it, and the
      unseen states shrink when it is on the map. */
  lemma TrackStep(width: nat, height: nat, cells: seq<bool>, g: Guard, path: seq<Guard>, pathSet: set<Guard>)
    requires Fits(width, height, cells) && Tracked(width, height, cells, g, path, pathSet)
    requires InBounds(width, height, path[|path| - 1].position)
    ensures var next := NextGuard(width, height, cells, path[|path| - 1]);
      (next !in pathSet ==>
        Tracked(width, height, cells, g, path + [next], pathSet + {next}) &&
        (InBounds(width, height, next.position) ==> Unseen(width, height, pathSet + {next}) < Unseen(width, height, pathSet)) &&
        (!InBounds(width, height, next.position) ==> Unseen(width, height, pathSet + {next}) == Unseen(width, height, pathSet)))
  {
    var next := NextGuard(width, height, cells, path[|path| - 1]);
    PathInAllStates(width, height, path, pathSet);
    if next !in pathSet {
      var path' := path + [next];
      assert next == Walk(width, height, cells, g, |path|);
      ElementsPush(path, next);
      InAllStates(width, height, next);
    }
  }

  /** Where `find_path` stops: off the map, or on the map with the next
      state already seen. Either way the walk is a patrol, and it loops
      exactly when it stopped on the map. */
  lemma TrackedPatrol(width: nat, height: nat, cells: seq<bool>, g: Guard, path: seq<Guard>, pathSet: set<Guard>)
    requires Fits(width, height, cells) && Tracked(width, height, cells, g, path, pathSet)
    requires InBounds(width, height, path[|path| - 1].position) ==>
      NextGuard(width, height, cells, path[|path| - 1]) in pathSet
    ensures IsPatrol(width, height, cells, g, path)
    ensures InBounds(width, height, path[|path| - 1].position) <==> !Escapes(width, height, cells, g)
  {
    var last := path[|path| - 1];
    if InBounds(width, height, last.position) {
      var i :| 0 <= i < |path| && path[i] == NextGuard(width, height, cells, last);
    }
    PatrolEscapes(width, height, cells, g, path);
  }

  /** The states of a path with one more appended. */
  lemma ElementsPush(path: seq<Guard>, next: Guard)
    ensures (set i | 0 <= i < |path + [next]| :: (path + [next])[i]) == (set i | 0 <= i < |path| :: path[i]) + {next}
  {
    var path' := path + [next];
    var grown, before := set i | 0 <= i < |path'| :: path'[i], set i | 0 <= i < |path| :: path[i];
    forall x | x in grown ensures x in before + {next} {
      var i :| 0 <= i < |path'| && path'[i] == x;
      if i < |path| {
        assert path[i] == x;
      }
    }
    forall x | x in before + {next} ensures x in grown {
      if x == next {
        assert path'[|path|] == x;
      } else {
        var i :| 0 <= i < |path| && path[i] == x;
        assert path'[i] == x;
      }
    }
  }

  lemma PathInAllStates(width: nat, height: nat, path: seq<Guard>, pathSet: set<Guard>)
    requires pathSet == set i | 0 <= i < |path| :: path[i]
    requires forall i :: 0 <= i < |path| ==> InBounds(width, height, path[i].position)
    ensures pathSet <= AllStates(width, height)
  {
    forall s | s in pathSet ensures s in AllStates(width, height) {
      InAllStates(width, height, s);
    }
  }

  lemma InAllStates(width: nat, height: nat, s: Guard)
    ensures InBounds(width, height, s.position) <==> s in AllStates(width, height)
  {
    if InBounds(width, height, s.position) {
      assert s.direction.Up? || s.direction.Right? || s.direction.Down? || s.direction.Left?;
      assert s == Guard(Point(s.position.x, s.position.y), s.direction);
    }
  }

  /** An extra obstacle at `o` keeps the guard on the map for ever. */
  ghost predicate Traps(width: nat, height: nat, cells: seq<bool>, g: Guard, o: Point)
    requires Fits(width, height, cells)
  {
    !Escapes(width, height, Mark(width, height, cells, o), g)
  }

  /** The cells among `among` where an extra obstacle traps the guard. */
  ghost function Trapping(width: nat, height: nat, cells: seq<bool>, g: Guard, among: set<Point>): set<Point>
    requires Fits(width, height, cells)
  {
    set o | o in among && Traps(width, height, cells, g, o)
  }

  lemma TrapsStep(width: nat, height: nat, cells: seq<bool>, g: Guard, done: set<Point>, o: Point)
    requires Fits(width, height, cells) && o !in done
    ensures |Trapping(width, height, cells, g, done + {o})| ==
      |Trapping(width, height, cells, g, done)| + (if Traps(width, height, cells, g, o) then 1 else 0)
  {
    assert Trapping(width, height, cells, g, done + {o}) ==
      Trapping(width, height, cells, g, done) + (if Traps(width, height, cells, g, o) then {o} else {});
  }

  /** The candidate cells where an obstacle traps the guard. */
  ghost function LoopingObstacles(width: nat, height: nat, cells: seq<bool>, g: Guard,
                                  path: seq<Guard>): set<Point>
    requires Fits(width, height, cells)
  {
    Trapping(width, height, cells, g, Ahead(path))
  }

  /** The filter over candidate cells in the solver: try each on a copy. */
  method CountLoopingObstacles(state: State) returns (count: nat, ghost path: seq<Guard>)
    requires state.Valid()
    ensures IsPatrol(state.width, state.height, state.data, state.guard, path)
    ensures count == |LoopingObstacles(state.width, state.height, state.data, state.guard, path)|
  {
    var _, p := state.FindPath();
    path := p;
    ghost var w, h, cells, g := state.width, state.height, state.data, state.guard;
    var candidates := Ahead(p);
    var remaining := candidates;
    ghost var done: set<Point> := {};
    count := 0;
    while remaining != {}
      invariant done <= candidates && remaining == candidates - done
      invariant Fits(w, h, cells)
      invariant count == |Trapping(w, h, cells, g, done)|
      decreases |remaining|
    {
      var o :| o in remaining;
      var isInfinite := TrialTraps(state, o);
      if isInfinite {
        count := count + 1;
      }
      assert count == |Trapping(w, h, cells, g, done + {o})| by {
        TrapsStep(w, h, cells, g, done, o);
      }
      assert remaining - {o} == candidates - (done + {o}) by {
        SetMove(candidates, done, o);
      }
      remaining := remaining - {o};
      done := done + {o};
    }
    assert done == candidates;
  }

  /** One trial of the solver: a copy of the map with an obstacle added at
      `o` loops exactly when `o` traps the guard. */
  method TrialTraps(state: State, o: Point) returns (isInfinite: bool)
    requires state.Valid()
    ensures isInfinite == Traps(state.width, state.height, state.data, state.guard, o)
  {
    var trial := state.Clone();
    trial.AddObstacle(o);
    var path;
    isInfinite, path := trial.FindPath();
  }

  lemma SetMove<T>(all: set<T>, done: set<T>, o: T)
    requires o in all - done
    ensures all - (done + {o}) == (all - done) - {o}
  {
  }

  /** The map as `State::new` reads it. */
  datatype Layout = Layout(width: nat, height: nat, cells: seq<bool>, start: Guard)

  /** The lines `State::new` keeps: the non-empty ones. */
  function Rows(lines: seq<string>): (r: seq<string>)
    ensures forall i :: 0 <= i < |r| ==> r[i] != []
    ensures forall i :: 0 <= i < |lines| && lines[i] != [] ==> lines[i] in r
  {
    if lines == [] then []
    else (if lines[0] == [] then [] else [lines[0]]) + Rows(lines[1..])
  }

  predicate UniqueWidth(rows: seq<string>)
  {
    rows != [] && forall i :: 0 <= i < |rows| ==> |rows[i]| == |rows[0]|
  }

  predicate IsTile(c: char)
  {
    c == '.' || c == '#' || c == '^' || c == '>' || c == '<' || c == 'v'
  }

  predicate AllTiles(s: string)
  {
    forall i :: 0 <= i < |s| ==> IsTile(s[i])
  }

  /** The guard characters and the way each faces. */
  function Facing(c: char): Option<Direction>
  {
    match c
    case '^' => Some(Up)
    case '>' => Some(Right)
    case '<' => Some(Left)
    case 'v' => Some(Down)
    case _ => None
  }

  function CountGuards(s: string): nat
  {
    if s == [] then 0
    else CountGuards(s[..|s| - 1]) + (if Facing(s[|s| - 1]).Some? then 1 else 0)
  }

  /** The slot of the last guard character. */
  function GuardSlot(s: string): (i: nat)
    requires CountGuards(s) >= 1
    ensures i < |s| && Facing(s[i]).Some?
  {
    if Facing(s[|s| - 1]).Some? then |s| - 1 else GuardSlot(s[..|s| - 1])
  }

  /** The obstacle flag of every character. */
  function Obstacles(s: string): (r: seq<bool>)
    ensures |r| == |s|
  {
    if s == [] then [] else Obstacles(s[..|s| - 1]) + [s[|s| - 1] == '#']
  }

  /** What is wrong with one character, given whether a guard was already
      seen before it. */
  function CellProblem(c: char, guarded: bool): Option<string>
  {
    if !IsTile(c) then Some("unhandled char: " + [c])
    else if Facing(c).Some? && guarded then Some("two guard locations found")
    else None
  }

  /** The first problem of the cell scan, in scan order. */
  function FirstProblem(s: string): Option<string>
  {
    if s == [] then None
    else
      var before := FirstProblem(s[..|s| - 1]);
      if before.Some? then before else CellProblem(s[|s| - 1], CountGuards(s[..|s| - 1]) > 0)
  }

  /** The scan finds no problem exactly when every character is a map
      character and at most one is a guard. */
  lemma {:induction false} NoProblem(s: string)
    ensures FirstProblem(s).None? <==> AllTiles(s) && CountGuards(s) <= 1
  {
    if s != [] {
      var init := s[..|s| - 1];
      NoProblem(init);
      assert forall i :: 0 <= i < |init| ==> init[i] == s[i];
      assert AllTiles(s) <==> AllTiles(init) && IsTile(s[|s| - 1]) by {
        if AllTiles(init) && IsTile(s[|s| - 1]) {
          forall i | 0 <= i < |s| ensures IsTile(s[i]) {
            if i < |init| {
              assert IsTile(init[i]);
            }
          }
        }
      }
    }
  }

  /** Once a prefix of the scan has a problem, that problem is the first one
      of the whole scan. */
  lemma {:induction false} ProblemPersists(s: string, k: nat)
    requires k <= |s| && FirstProblem(s[..k]).Some?
    ensures FirstProblem(s) == FirstProblem(s[..k])
    decreases |s|
  {
    if k < |s| {
      assert s[..|s| - 1][..k] == s[..k];
      ProblemPersists(s[..|s| - 1], k);
    } else {
      assert s[..k] == s;
    }
  }

  /** `State::new` declaratively: one width over the non-empty lines, then
      the first problem of the cell scan in scan order, then a guard. */
  function ReadLayout(lines: seq<string>): (r: Result<Layout>)
    ensures r.Ok? <==>
      (var rows := Rows(lines);
       UniqueWidth(rows) && AllTiles(Flatten(rows)) && CountGuards(Flatten(rows)) == 1)
    ensures r.Ok? ==>
      (Fits(r.value.width, r.value.height, r.value.cells) && r.value.width >= 1 &&
       InBounds(r.value.width, r.value.height, r.value.start.position) &&
       !ObstacleAt(r.value.width, r.value.height, r.value.cells, r.value.start.position))
  {
    var rows := Rows(lines);
    if !UniqueWidth(rows) then Err("expected unique width")
    else
      var w, flat := |rows[0]|, Flatten(rows);
      FlattenIndex(rows, w);
      NoProblem(flat);
      var problem := FirstProblem(flat);
      if problem.Some? then Err(problem.value)
      else if CountGuards(flat) == 0 then Err("no guard")
      else
        var slot := GuardSlot(flat);
        var start := PointAt(w, slot);
        var cells := Obstacles(flat);
        assert InBounds(w, |rows|, start) by {
          if start.y >= |rows| {
            MulMonotone(|rows|, start.y, w);
          }
        }
        assert ObstacleAt(w, |rows|, cells, start) == cells[slot];
        ObstaclesIndex(flat, slot);
        Ok(Layout(w, |rows|, cells, Guard(start, Facing(flat[slot]).value)))
  }

  /** The two scan errors, each on a map where it is the first problem: the
      row `^^x` holds a second guard before the stray character. */
  lemma ScanOrderErrors()
    ensures ReadLayout(["^^x"]) == Err("two guard locations found")
    ensures ReadLayout(["^x^"]) == Err("unhandled char: x")
  {
    GuardThenGuard();
    GuardThenStray();
    SingleRowError("^^x");
    SingleRowError("^x^");
  }

  /** A one-row map with a scan problem fails with that problem. */
  lemma SingleRowError(line: string)
    requires line != [] && FirstProblem(line).Some?
    ensures ReadLayout([line]) == Err(FirstProblem(line).value)
  {
    assert [line][1..] == [] && Rows([line]) == [line];
    assert [line][..0] == [] && Flatten([line]) == [] + line == line;
  }

  lemma GuardThenGuard()
    ensures FirstProblem("^^x") == Some("two guard locations found")
  {
    var a, one := "^^x", "^";
    assert CountGuards(one) == 1 && FirstProblem(one) == None by {
      assert one[..0] == [];
    }
    var a2 := a[..2];
    assert a2[..1] == one && a2[1] == '^';
    assert FirstProblem(a2) == CellProblem('^', true) == Some("two guard locations found");
    ProblemPersists(a, 2);
  }

  lemma GuardThenStray()
    ensures FirstProblem("^x^") == Some("unhandled char: x")
  {
    var b, one := "^x^", "^";
    assert CountGuards(one) == 1 && FirstProblem(one) == None by {
      assert one[..0] == [];
    }
    var b2 := b[..2];
    assert b2[..1] == one && b2[1] == 'x';
    assert "unhandled char: " + ['x'] == "unhandled char: x";
    assert FirstProblem(b2) == CellProblem('x', true) == Some("unhandled char: x");
    ProblemPersists(b, 2);
  }

  lemma {:induction false} ObstaclesIndex(s: string, i: nat)
    requires i < |s|
    ensures Obstacles(s)[i] == (s[i] == '#')
  {
    if i < |s| - 1 {
      ObstaclesIndex(s[..|s| - 1], i);
    }
  }

  /** Each map cell is an obstacle exactly when its character is '#', and
      the guard starts on its own character, facing the way it points. */
  lemma ReadLayoutCells(lines: seq<string>, p: Point)
    requires ReadLayout(lines).Ok?
    requires InBounds(ReadLayout(lines).value.width, ReadLayout(lines).value.height, p)
    ensures var L, rows := ReadLayout(lines).value, Rows(lines);
      ObstacleAt(L.width, L.height, L.cells, p) == (rows[p.y][p.x] == '#') &&
      Facing(rows[L.start.position.y][L.start.position.x]) == Some(L.start.direction)
  {
    var rows := Rows(lines);
    var w, flat := |rows[0]|, Flatten(rows);
    NoProblem(flat);
    var slot := GuardSlot(flat);
    var L := ReadLayout(lines).value;
    assert L == Layout(w, |rows|, Obstacles(flat), Guard(PointAt(w, slot), Facing(flat[slot]).value));
    LayoutCells(rows, L, p, slot);
  }

  lemma LayoutCells(rows: seq<string>, L: Layout, p: Point, slot: nat)
    requires UniqueWidth(rows) && L.width == |rows[0]| >= 1 && L.height == |rows|
    requires L.cells == Obstacles(Flatten(rows)) && Fits(L.width, L.height, L.cells)
    requires slot < |Flatten(rows)| && Facing(Flatten(rows)[slot]).Some?
    requires L.start == Guard(PointAt(L.width, slot), Facing(Flatten(rows)[slot]).value)
    requires InBounds(L.width, L.height, p) && InBounds(L.width, L.height, L.start.position)
    ensures ObstacleAt(L.width, L.height, L.cells, p) == (rows[p.y][p.x] == '#')
    ensures Facing(rows[L.start.position.y][L.start.position.x]) == Some(L.start.direction)
  {
    var flat := Flatten(rows);
    FlattenIndex(rows, L.width);
    IndexBounds(L.width, L.height, p);
    ObstaclesIndex(flat, Index(L.width, p));
    PointAtIndex(L.width, L.start.position);
  }

  /** The `.filter(!is_empty)` step of `State::new`. */
  method KeepNonEmpty(lines: seq<string>) returns (rows: seq<string>)
    ensures rows == Rows(lines)
  {
    rows := [];
    var i := |lines|;
    while i > 0
      invariant 0 <= i <= |lines| && rows == Rows(lines[i..])
    {
      i := i - 1;
      assert lines[i..][1..] == lines[i + 1..];
      if lines[i] != [] {
        rows := [lines[i]] + rows;
      }
    }
    assert lines[0..] == lines;
  }

    /** The parsing half of `State::new`: keep the non-empty lines, require
      one width, then scan the cells row by row. */
  method ScanLayout(lines: seq<string>) returns (r: Result<Layout>)
    ensures r == ReadLayout(lines)
  {
    var rows := KeepNonEmpty(lines);
    var unique := HasUniqueWidth(rows);
    if !unique {
      return Err("expected unique width");
    }
    var width, height := |rows[0]|, |rows|;
    FlattenIndex(rows, width);
    var scan := ScanRows(rows, width);
    if scan.Err? {
      return Err(scan.msg);
    }
    var (data, guard) := scan.value;
    ScannedAll(lines, rows, Flatten(rows), data, guard);
    if guard.None? {
      return Err("no guard");
    }
    return Ok(Layout(width, height, data, guard.value));
  }

  /** The row loop of `State::new` over rows of one width. */
  method ScanRows(rows: seq<string>, width: nat) returns (r: Result<(seq<bool>, Option<Guard>)>)
    requires width >= 1 && forall i :: 0 <= i < |rows| ==> |rows[i]| == width
    ensures r.Ok? ==> Scanned(Flatten(rows), |rows| * width, r.value.0, r.value.1, width)
    ensures r.Err? ==> FirstProblem(Flatten(rows)) == Some(r.msg)
  {
    ghost var flat := Flatten(rows);
    FlattenIndex(rows, width);
    var height := |rows|;
    var data: seq<bool> := [];
    var guard: Option<Guard> := None;
    for y := 0 to height
      invariant Scanned(flat, y * width, data, guard, width)
    {
      RowsApart(y, height, width);
      var next := ScanRow(rows[y], flat, y * width, y, width, data, guard);
      if next.Err? {
        return Err(next.msg);
      }
      data, guard := next.value.0, next.value.1;
      assert y * width + width == (y + 1) * width;
    }
    return Ok((data, guard));
  }

  /** Once every row is scanned, the scan agrees with `ReadLayout`. */
  lemma ScannedAll(lines: seq<string>, rows: seq<string>, flat: string, data: seq<bool>, guard: Option<Guard>)
    requires rows == Rows(lines) && UniqueWidth(rows) && flat == Flatten(rows)
    requires |flat| == |rows| * |rows[0]|
    requires Scanned(flat, |rows| * |rows[0]|, data, guard, |rows[0]|)
    ensures guard.None? ==> ReadLayout(lines) == Err("no guard")
    ensures guard.Some? ==> ReadLayout(lines) == Ok(Layout(|rows[0]|, |rows|, data, guard.value))
  {
    assert flat[..|flat|] == flat;
    NoProblem(flat);
  }

  /** The width loop of `State::new`: every kept line as long as the first. */
  method HasUniqueWidth(rows: seq<string>) returns (ok: bool)
    ensures ok == UniqueWidth(rows)
  {
    if rows == [] {
      return false;
    }
    var width := |rows[0]|;
    var i := 1;
    while i < |rows|
      invariant 1 <= i <= |rows| && forall k :: 0 <= k < i ==> |rows[k]| == width
    {
      if |rows[i]| != width {
        return false;
      }
      i := i + 1;
    }
    return true;
  }

/** `State::new`: scan the rows, push one flag per cell, remember the one
      guard, then mark its cell visited. */
  method NewState(lines: seq<string>) returns (r: Result<State>)
    ensures r.Ok? <==> ReadLayout(lines).Ok?
    ensures r.Err? ==> r.msg == ReadLayout(lines).msg
    ensures r.Ok? ==> var L := ReadLayout(lines).value;
      fresh(r.value) && r.value.Valid() &&
      r.value.width == L.width && r.value.height == L.height &&
      r.value.data == L.cells && r.value.guard == L.start &&
      r.value.visited == Mark(L.width, L.height, seq(L.width * L.height, _ => false), L.start.position)
  {
    var layout :- ScanLayout(lines);
    var width, height, data, guard := layout.width, layout.height, layout.cells, layout.start;
    var state := new State(width, height, data, guard, seq(width * height, _ => false));
    state.Visit(guard.position);
    return Ok(state);
  }

  /** The inner loop of `State::new` over the characters of one row, which
      starts at slot `base` of the flattened map. */
  method ScanRow(row: string, ghost flat: string, base: nat, y: nat, width: nat, data: seq<bool>, guard: Option<Guard>)
    returns (r: Result<(seq<bool>, Option<Guard>)>)
    requires |row| == width && base + width <= |flat| && base == y * width
    requires forall x :: 0 <= x < width ==> flat[base + x] == row[x]
    requires Scanned(flat, base, data, guard, width)
    ensures r.Ok? ==> Scanned(flat, base + width, r.value.0, r.value.1, width)
    ensures r.Err? ==> FirstProblem(flat) == Some(r.msg)
  {
    var cur, g := data, guard;
    for x := 0 to width
      invariant Scanned(flat, base + x, cur, g, width)
    {
      PointAtIndex(width, Point(x, y));
      var next := ScanCell(flat, base + x, row[x], Point(x, y), cur, g, width);
      if next.Err? {
        return Err(next.msg);
      }
      cur, g := next.value.0, next.value.1;
    }
    return Ok((cur, g));
  }

  /** One character of the scan: push its flag, and take it as the guard
      unless a guard was already seen. */
  method ScanCell(ghost flat: string, k: nat, c: char, p: Point, data: seq<bool>, guard: Option<Guard>, width: nat)
    returns (r: Result<(seq<bool>, Option<Guard>)>)
    requires Scanned(flat, k, data, guard, width) && k < |flat| && flat[k] == c
    requires width >= 1 && PointAt(width, k) == p
    ensures r.Ok? ==> Scanned(flat, k + 1, r.value.0, r.value.1, width)
    ensures r.Err? ==> FirstProblem(flat) == Some(r.msg)
  {
    assert flat[..k + 1] == flat[..k] + [c];
    assert flat[..k + 1][..k] == flat[..k];
    NoProblem(flat[..k]);
    if !IsTile(c) {
      ProblemPersists(flat, k + 1);
      return Err("unhandled char: " + [c]);
    }
    var proposed := Facing(c);
    if proposed.Some? {
      if guard.Some? {
        ProblemPersists(flat, k + 1);
        return Err("two guard locations found");
      }
      return Ok((data + [c == '#'], Some(Guard(p, proposed.value))));
    }
    return Ok((data + [c == '#'], guard));
  }

  /** The loop state of `State::new` after the first `k` cells. */
  ghost predicate Scanned(flat: string, k: int, data: seq<bool>, guard: Option<Guard>, width: nat)
  {
    width >= 1 && 0 <= k <= |flat| &&
    AllTiles(flat[..k]) &&
    data == Obstacles(flat[..k]) &&
    CountGuards(flat[..k]) <= 1 &&
    (guard.None? <==> CountGuards(flat[..k]) == 0) &&
    (guard.Some? ==> guard.value == Guard(PointAt(width, GuardSlot(flat[..k])),
                                         Facing(flat[GuardSlot(flat[..k])]).value))
  }

  /** Guards seen so far are never more than in the whole map. */
  lemma {:induction false} GuardsGrow(s: string, k: nat)
    requires k <= |s|
    ensures CountGuards(s[..k]) <= CountGuards(s)
    decreases |s|
  {
    if k < |s| {
      assert s[..|s| - 1][..k] == s[..k];
      GuardsGrow(s[..|s| - 1], k);
    } else {
      assert s[..k] == s;
    }
  }

  /** `do_it`: trim the lines, build the state, count the trapping cells. */
  method Solve(lines: seq<string>) returns (r: Result<nat>, ghost path: seq<Guard>)
    ensures r.Ok? <==> ReadLayout(TrimLines(lines)).Ok?
    ensures r.Err? ==> r.msg == ReadLayout(TrimLines(lines)).msg
    ensures r.Ok? ==> var L := ReadLayout(TrimLines(lines)).value;
      IsPatrol(L.width, L.height, L.cells, L.start, path) &&
      r.value == |LoopingObstacles(L.width, L.height, L.cells, L.start, path)|
  {
    var state := NewState(TrimLines(lines));
    if state.Err? {
      return Err(state.msg), [];
    }
    var count;
    count, path := CountLoopingObstacles(state.value);
    return Ok(count), path;
  }
}
