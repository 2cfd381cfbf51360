/** Trail ratings: the number of distinct climbing trails from each
    height-0 cell to any height-9 cell, by plain recursion. The map, `get`
    and `find_all` are as in part one. */
module Day10b {
  import opened Common
  import opened Grid2D
  import opened Text
  import opened Day10a

  /** `count_paths`: 0 off the map, 1 on a peak, and otherwise the sum over
      the climbing candidates. */
  function CountPaths(m: Map, p: Point): nat
    requires Valid(m)
    decreases if InBounds(m.width, m.height, p) then 10 - Height(m, p) else 0, 1
  {
    if !InBounds(m.width, m.height, p) then 0
    else if Height(m, p) == 9 then 1
    else PathsVia(m, p, 0)
  }

  /** The trails through candidates `k` to 3 of `p`. */
  function PathsVia(m: Map, p: Point, k: nat): nat
    requires Valid(m) && InBounds(m.width, m.height, p) && k <= 4
    decreases 10 - Height(m, p), 0, 4 - k
  {
    if k == 4 then 0
    else
      var q := Candidates(p)[k];
      (if Climbs(m, p, q) then CountPaths(m, q) else 0) + PathsVia(m, p, k + 1)
  }

  /** Every peak reachable from `p` ends at least one trail, so the rating is
      at least the part-one score; and a cell has trails exactly when it
      reaches some peak. */
  lemma {:induction false} RatingBoundsScore(m: Map, p: Point)
    requires Valid(m) && InBounds(m.width, m.height, p)
    ensures |PeaksFrom(m, p)| <= CountPaths(m, p)
    ensures CountPaths(m, p) > 0 <==> PeaksFrom(m, p) != {}
    decreases 10 - Height(m, p), 1
  {
    if Height(m, p) < 9 {
      ViaBoundsScore(m, p, 0);
    }
  }

  lemma {:induction false} ViaBoundsScore(m: Map, p: Point, k: nat)
    requires Valid(m) && InBounds(m.width, m.height, p) && k <= 4
    ensures |PeaksVia(m, p, k)| <= PathsVia(m, p, k)
    ensures PathsVia(m, p, k) > 0 <==> PeaksVia(m, p, k) != {}
    decreases 10 - Height(m, p), 0, 4 - k
  {
    if k < 4 {
      var q := Candidates(p)[k];
      if Climbs(m, p, q) {
        RatingBoundsScore(m, q);
      }
      ViaBoundsScore(m, p, k + 1);
      var a := if Climbs(m, p, q) then PeaksFrom(m, q) else {};
      var b := PeaksVia(m, p, k + 1);
      assert |a + b| <= |a| + |b| by {
        assert |a + b| + |a * b| == |a| + |b|;
      }
      assert a + b != {} <==> a != {} || b != {} by {
        if a != {} {
          var x :| x in a;
          assert x in a + b;
        }
        if b != {} {
          var x :| x in b;
          assert x in a + b;
        }
      }
    }
  }

  /** The rating of every trailhead, added up. */
  function TotalRating(m: Map, heads: seq<Point>): nat
    requires Valid(m)
  {
    if heads == [] then 0
    else TotalRating(m, heads[..|heads| - 1]) + CountPaths(m, heads[|heads| - 1])
  }

  /** Ratings add up to at least the scores. */
  lemma {:induction false} TotalRatingBoundsScore(m: Map, heads: seq<Point>)
    requires Valid(m) && InBoundsAll(m, heads)
    ensures TotalScore(m, heads) <= TotalRating(m, heads)
  {
    if heads != [] {
      TotalRatingBoundsScore(m, heads[..|heads| - 1]);
      RatingBoundsScore(m, heads[|heads| - 1]);
    }
  }

  /** `do_it`: trim the lines, read the map, and add up the ratings of the
      height-0 cells. */
  method Solve(lines: seq<string>) returns (r: Result<nat>)
    ensures r.Ok? <==> ReadMap(TrimLines(lines)).Ok?
    ensures r.Ok? ==> (var m := ReadMap(TrimLines(lines)).value;
      r.value == TotalRating(m, Positions(m.data, m.width, 0, |m.data|)))
  {
    var parsed := ReadMap(TrimLines(lines));
    if parsed.Err? {
      return Err(parsed.msg);
    }
    var m := parsed.value;
    var heads := FindAll(m, 0);
    return Ok(TotalRating(m, heads));
  }
}
