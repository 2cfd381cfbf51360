/** Locks and keys: the trimmed lines fall into blank-line separated
    schematics; one with a full top row and an empty bottom row is a lock,
    the reverse a key. Each column's height is its count of `#` outside the
    full row, and a lock and a key fit when no column's heights add up to
    more than the schematic height minus two. The answer counts fitting
    (lock, key) pairs. */
module Day25a {
  import opened Common
  import opened Text

  /** `split` on empty lines: every empty line ends one chunk and starts the
      next, so `k` empty lines make `k + 1` chunks, some possibly empty. */
  function Chunks(lines: seq<string>): (r: seq<seq<string>>)
    ensures |r| >= 1
  {
    if lines == [] then [[]]
    else
      var rest := Chunks(lines[1..]);
      if lines[0] == [] then [[]] + rest else [[lines[0]] + rest[0]] + rest[1..]
  }

  /** The chunks put back together, one empty line between neighbours. */
  function Unchunk(chunks: seq<seq<string>>): seq<string>
    requires |chunks| >= 1
  {
    if |chunks| == 1 then chunks[0] else chunks[0] + [[]] + Unchunk(chunks[1..])
  }

  /** Splitting loses nothing: the chunks and the separators are the lines. */
  lemma {:induction false} UnchunkChunks(lines: seq<string>)
    ensures Unchunk(Chunks(lines)) == lines
  {
    if lines != [] {
      var tail := lines[1..];
      var rest := Chunks(tail);
      UnchunkChunks(tail);
      assert lines == [lines[0]] + tail;
      if lines[0] == [] {
        var r := [[]] + rest;
        assert r[1..] == rest;
        assert Unchunk(r) == [] + [[]] + Unchunk(rest);
      } else {
        var first := [lines[0]] + rest[0];
        var r := [first] + rest[1..];
        assert r[0] == first;
        if |rest| == 1 {
          assert Unchunk(r) == first;
        } else {
          var later := Unchunk(rest[1..]);
          assert r[1..] == rest[1..];
          assert Unchunk(r) == first + [[]] + later;
          assert tail == rest[0] + [[]] + later;
        }
      }
    }
  }

  predicate NoEmptyLine(chunks: seq<seq<string>>)
  {
    forall k, i :: 0 <= k < |chunks| && 0 <= i < |chunks[k]| ==> chunks[k][i] != []
  }

  /** No chunk holds an empty line: every empty line is a separator. */
  lemma {:induction false} ChunksHaveNoEmptyLine(lines: seq<string>)
    ensures NoEmptyLine(Chunks(lines))
  {
    if lines != [] {
      ChunksHaveNoEmptyLine(lines[1..]);
    }
  }

  /** A row of `width` copies of `c`. */
  function Row(width: nat, c: char): (r: string)
    ensures |r| == width && forall x :: 0 <= x < width ==> r[x] == c
  {
    seq(width, _ => c)
  }

  /** The number of rows `lo .. hi - 1` with `#` in column `x`. */
  function ColumnCount(chunk: seq<string>, x: nat, lo: nat, hi: nat): (n: nat)
    requires lo <= hi <= |chunk| && forall y :: lo <= y < hi ==> x < |chunk[y]|
    ensures n <= hi - lo
    ensures n == 0 <==> forall y :: lo <= y < hi ==> chunk[y][x] != '#'
    ensures n == hi - lo <==> forall y :: lo <= y < hi ==> chunk[y][x] == '#'
    decreases hi - lo
  {
    if lo == hi then 0 else ColumnCount(chunk, x, lo, hi - 1) + (if chunk[hi - 1][x] == '#' then 1 else 0)
  }

  /** Column heights over rows `lo .. hi - 1`. */
  function Heights(chunk: seq<string>, width: nat, lo: nat, hi: nat): (r: seq<nat>)
    requires lo <= hi <= |chunk| && forall y :: 0 <= y < |chunk| ==> |chunk[y]| == width
    ensures |r| == width && forall x :: 0 <= x < width ==> r[x] <= hi - lo
  {
    seq(width, x requires 0 <= x < width => ColumnCount(chunk, x, lo, hi))
  }

  datatype Schematic = Lock(heights: seq<nat>) | Key(heights: seq<nat>)

  /** One chunk read: its width, its height and what it is. */
  datatype Chunk = Chunk(width: nat, height: nat, schematic: Schematic)

  predicate IsLockShape(chunk: seq<string>)
    requires chunk != []
  {
    chunk[0] == Row(|chunk[0]|, '#') && chunk[|chunk| - 1] == Row(|chunk[0]|, '.')
  }

  predicate IsKeyShape(chunk: seq<string>)
    requires chunk != []
  {
    chunk[0] == Row(|chunk[0]|, '.') && chunk[|chunk| - 1] == Row(|chunk[0]|, '#')
  }

  /** The body of the loop over chunks: the line widths must be one width;
      a lock counts `#` below its top row, a key above its bottom row, and
      anything else is refused. */
  function ReadChunk(chunk: seq<string>): (r: Result<Chunk>)
    ensures r.Ok? <==> chunk != [] && SameWidth(chunk) && (IsLockShape(chunk) || IsKeyShape(chunk))
    ensures r.Ok? ==> r.value.width == |chunk[0]| && r.value.height == |chunk|
    ensures r.Ok? ==> (r.value.schematic.Lock? <==> IsLockShape(chunk))
  {
    if chunk == [] || !SameWidth(chunk) then Err("uneven chunk line lengths")
    else
      var width, height := |chunk[0]|, |chunk|;
      if IsLockShape(chunk) then Ok(Chunk(width, height, Lock(Heights(chunk, width, 1, height))))
      else if IsKeyShape(chunk) then Ok(Chunk(width, height, Key(Heights(chunk, width, 0, height - 1))))
      else Err("not a lock or a key")
  }

  /** A schematic has one height per column and, because the row opposite
      the full one is empty, every height is at most the height minus two
      (so a schematic is at least two rows high). */
  lemma ChunkHeights(chunk: seq<string>)
    requires ReadChunk(chunk).Ok? && chunk[0] != []
    ensures var c := ReadChunk(chunk).value;
      c.height >= 2 && |c.schematic.heights| == c.width &&
      forall x :: 0 <= x < c.width ==> c.schematic.heights[x] <= c.height - 2
  {
    var c := ReadChunk(chunk).value;
    var width, height := c.width, c.height;
    assert chunk[0][0] != chunk[height - 1][0];
    forall x | 0 <= x < width ensures c.schematic.heights[x] <= height - 2 {
      if c.schematic.Lock? {
        assert chunk[height - 1][x] == '.';
        assert ColumnCount(chunk, x, 1, height) == ColumnCount(chunk, x, 1, height - 1);
      } else {
        assert chunk[0][x] == '.';
        ColumnCountFirst(chunk, x, 0, height - 1);
      }
    }
  }

  /** Dropping a first row without `#` leaves the count unchanged. */
  lemma {:induction false} ColumnCountFirst(chunk: seq<string>, x: nat, lo: nat, hi: nat)
    requires lo < hi <= |chunk| && forall y :: lo <= y < hi ==> x < |chunk[y]|
    requires chunk[lo][x] != '#'
    ensures ColumnCount(chunk, x, lo, hi) == ColumnCount(chunk, x, lo + 1, hi)
    decreases hi - lo
  {
    if lo + 1 < hi {
      ColumnCountFirst(chunk, x, lo, hi - 1);
    }
  }

  /** Every chunk read, or the first refusal. */
  function ReadChunks(chunks: seq<seq<string>>): (r: Result<seq<Chunk>>)
    ensures r.Ok? ==> |r.value| == |chunks|
  {
    if chunks == [] then Ok([])
    else
      var front :- ReadChunks(chunks[..|chunks| - 1]);
      var last :- ReadChunk(chunks[|chunks| - 1]);
      Ok(front + [last])
  }

  /** The chunks are all read exactly when each one is, and then each is
      read on its own. */
  lemma {:induction false} ReadChunksEach(chunks: seq<seq<string>>)
    ensures ReadChunks(chunks).Ok? <==> forall k :: 0 <= k < |chunks| ==> ReadChunk(chunks[k]).Ok?
    ensures ReadChunks(chunks).Ok? ==>
      forall k :: 0 <= k < |chunks| ==> ReadChunks(chunks).value[k] == ReadChunk(chunks[k]).value
  {
    if chunks != [] {
      var front := chunks[..|chunks| - 1];
      ReadChunksEach(front);
      assert forall k :: 0 <= k < |front| ==> front[k] == chunks[k];
    }
  }

  /** The (width, height) pairs that occur. */
  function Sizes(read: seq<Chunk>): set<(nat, nat)>
  {
    set k | 0 <= k < |read| :: (read[k].width, read[k].height)
  }

  /** The heights of the locks, in order. */
  function LocksOf(read: seq<Chunk>): (r: seq<seq<nat>>)
    ensures |r| <= |read|
  {
    if read == [] then []
    else LocksOf(read[..|read| - 1]) + (match read[|read| - 1].schematic case Lock(h) => [h] case Key(_) => [])
  }

  /** The heights of the keys, in order. */
  function KeysOf(read: seq<Chunk>): (r: seq<seq<nat>>)
    ensures |r| <= |read|
  {
    if read == [] then []
    else KeysOf(read[..|read| - 1]) + (match read[|read| - 1].schematic case Key(h) => [h] case Lock(_) => [])
  }

  /** Every lock and every key is one of the chunks, and the chunks are
      exactly shared out between them. */
  lemma {:induction false} SharedOut(read: seq<Chunk>)
    ensures |LocksOf(read)| + |KeysOf(read)| == |read|
    ensures forall h :: h in LocksOf(read) ==> exists k :: 0 <= k < |read| && read[k].schematic == Lock(h)
    ensures forall h :: h in KeysOf(read) ==> exists k :: 0 <= k < |read| && read[k].schematic == Key(h)
  {
    if read != [] {
      var front := read[..|read| - 1];
      SharedOut(front);
      forall h | h in LocksOf(read) ensures exists k :: 0 <= k < |read| && read[k].schematic == Lock(h) {
        if h in LocksOf(front) {
          var k :| 0 <= k < |front| && front[k].schematic == Lock(h);
          assert read[k] == front[k];
        } else {
          assert read[|read| - 1].schematic == Lock(h);
        }
      }
      forall h | h in KeysOf(read) ensures exists k :: 0 <= k < |read| && read[k].schematic == Key(h) {
        if h in KeysOf(front) {
          var k :| 0 <= k < |front| && front[k].schematic == Key(h);
          assert read[k] == front[k];
        } else {
          assert read[|read| - 1].schematic == Key(h);
        }
      }
    }
  }

  /** The loop over chunks: each is read and filed as a lock or a key, its
      size recorded; afterwards there must be exactly one size, whose height
      is returned with the locks and keys. */
  method Classify(chunks: seq<seq<string>>) returns (r: Result<(seq<seq<nat>>, seq<seq<nat>>, nat)>)
    ensures r.Ok? <==> ReadChunks(chunks).Ok? && |Sizes(ReadChunks(chunks).value)| == 1
    ensures r.Ok? ==> var read := ReadChunks(chunks).value;
      r.value.0 == LocksOf(read) && r.value.1 == KeysOf(read) &&
      forall k :: 0 <= k < |read| ==> read[k].height == r.value.2
  {
    var sizes: set<(nat, nat)> := {};
    var locks: seq<seq<nat>> := [];
    var pins: seq<seq<nat>> := [];
    ghost var read: seq<Chunk> := [];
    for i := 0 to |chunks|
      invariant ReadChunks(chunks[..i]) == Ok(read)
      invariant sizes == Sizes(read) && locks == LocksOf(read) && pins == KeysOf(read)
    {
      var c := ReadChunk(chunks[i]);
      if c.Err? {
        ReadChunksStops(chunks, i);
        return Err(c.msg);
      }
      ReadChunksStep(chunks, i, read);
      SizesPush(read, c.value);
      sizes := sizes + {(c.value.width, c.value.height)};
      match c.value.schematic {
        case Lock(h) => locks := locks + [h];
        case Key(h) => pins := pins + [h];
      }
      assert (read + [c.value])[..|read|] == read;
      read := read + [c.value];
    }
    assert chunks[..|chunks|] == chunks;
    if |sizes| != 1 {
      return Err("not all chunks are the same size");
    }
    var size :| size in sizes;
    OneSize(read, size);
    return Ok((locks, pins, size.1));
  }

  lemma ReadChunksStep(chunks: seq<seq<string>>, i: nat, read: seq<Chunk>)
    requires i < |chunks| && ReadChunks(chunks[..i]) == Ok(read) && ReadChunk(chunks[i]).Ok?
    ensures ReadChunks(chunks[..i + 1]) == Ok(read + [ReadChunk(chunks[i]).value])
  {
    assert chunks[..i + 1][..i] == chunks[..i];
  }

  /** A refused chunk refuses the whole input. */
  lemma ReadChunksStops(chunks: seq<seq<string>>, i: nat)
    requires i < |chunks| && ReadChunk(chunks[i]).Err?
    ensures ReadChunks(chunks).Err?
  {
    ReadChunksEach(chunks);
  }

  lemma SizesPush(read: seq<Chunk>, c: Chunk)
    ensures Sizes(read + [c]) == Sizes(read) + {(c.width, c.height)}
  {
    var grown := read + [c];
    forall s | s in Sizes(grown) ensures s in Sizes(read) + {(c.width, c.height)} {
      var k :| 0 <= k < |grown| && s == (grown[k].width, grown[k].height);
      if k < |read| {
        assert grown[k] == read[k];
      }
    }
    forall s | s in Sizes(read) ensures s in Sizes(grown) {
      var k :| 0 <= k < |read| && s == (read[k].width, read[k].height);
      assert grown[k] == read[k];
    }
    assert grown[|read|] == c;
  }

  /** With a single size every chunk has it. */
  lemma OneSize(read: seq<Chunk>, size: (nat, nat))
    requires size in Sizes(read) && |Sizes(read)| == 1
    ensures forall k :: 0 <= k < |read| ==> read[k].height == size.1
  {
    assert |Sizes(read) - {size}| == 0;
    assert Sizes(read) - {size} == {};
    forall k | 0 <= k < |read| ensures read[k].height == size.1 {
      assert (read[k].width, read[k].height) in Sizes(read);
    }
  }

  /** The `all` over the zipped columns: no column overlaps beyond `limit`. */
  predicate Fits(lock: seq<nat>, key: seq<nat>, limit: nat)
  {
    forall x :: 0 <= x < |lock| && x < |key| ==> lock[x] + key[x] <= limit
  }

  /** The fitting pairs (lock index, key index) that come before
      `(i0, j0)` in the order of the two nested loops. */
  ghost function PairsBefore(locks: seq<seq<nat>>, keys: seq<seq<nat>>, limit: nat, i0: int, j0: int): set<(int, int)>
  {
    set i, j | 0 <= i < |locks| && 0 <= j < |keys| && (i < i0 || (i == i0 && j < j0)) && Fits(locks[i], keys[j], limit) :: (i, j)
  }

  /** Every fitting (lock, key) pair. */
  ghost function FittingPairs(locks: seq<seq<nat>>, keys: seq<seq<nat>>, limit: nat): set<(int, int)>
  {
    set i, j | 0 <= i < |locks| && 0 <= j < |keys| && Fits(locks[i], keys[j], limit) :: (i, j)
  }

  /** The number of fitting pairs. */
  ghost function FitCount(locks: seq<seq<nat>>, keys: seq<seq<nat>>, limit: nat): nat
  {
    |FittingPairs(locks, keys, limit)|
  }

  /** Looking at pair `(i0, j0)` adds it when it fits, and it is new. */
  lemma PairsBeforeStep(locks: seq<seq<nat>>, keys: seq<seq<nat>>, limit: nat, i0: nat, j0: nat)
    requires i0 < |locks| && j0 < |keys|
    ensures (i0, j0) !in PairsBefore(locks, keys, limit, i0, j0)
    ensures PairsBefore(locks, keys, limit, i0, j0 + 1) ==
      PairsBefore(locks, keys, limit, i0, j0) + (if Fits(locks[i0], keys[j0], limit) then {(i0, j0)} else {})
  {
  }

  /** The pairs of one lock are done once its keys run out. */
  lemma PairsBeforeNextLock(locks: seq<seq<nat>>, keys: seq<seq<nat>>, limit: nat, i0: nat)
    ensures PairsBefore(locks, keys, limit, i0, |keys|) == PairsBefore(locks, keys, limit, i0 + 1, 0)
  {
  }

  /** The inner loop: lock `i` against every key. */
  method CountKeys(locks: seq<seq<nat>>, keys: seq<seq<nat>>, limit: nat, i: nat, count: nat) returns (count': nat)
    requires i < |locks| && count == |PairsBefore(locks, keys, limit, i, 0)|
    ensures count' == |PairsBefore(locks, keys, limit, i + 1, 0)|
  {
    count' := count;
    for j := 0 to |keys|
      invariant count' == |PairsBefore(locks, keys, limit, i, j)|
    {
      PairsBeforeStep(locks, keys, limit, i, j);
      if Fits(locks[i], keys[j], limit) {
        count' := count' + 1;
      }
    }
    PairsBeforeNextLock(locks, keys, limit, i);
  }

  /** The nested loops over locks and keys: the number of fitting pairs. */
  method CountFits(locks: seq<seq<nat>>, keys: seq<seq<nat>>, limit: nat) returns (count: nat)
    ensures count == FitCount(locks, keys, limit)
  {
    count := 0;
    assert PairsBefore(locks, keys, limit, 0, 0) == {};
    for i := 0 to |locks|
      invariant count == |PairsBefore(locks, keys, limit, i, 0)|
    {
      count := CountKeys(locks, keys, limit, i, count);
    }
    assert PairsBefore(locks, keys, limit, |locks|, 0) == FittingPairs(locks, keys, limit);
  }

  /** `do_it`: trimmed lines split into chunks, classified, and every lock
      tried against every key with the limit height minus two. */
  method Solve(lines: seq<string>) returns (r: Result<nat>)
    ensures r.Ok? <==> Schematics(lines).Ok? && |Sizes(Schematics(lines).value)| == 1
    ensures r.Ok? ==> var read := Schematics(lines).value;
      read != [] && read[0].height >= 2 &&
      r.value == FitCount(LocksOf(read), KeysOf(read), read[0].height - 2)
  {
    var chunks := Chunks(TrimLines(lines));
    ChunksHaveNoEmptyLine(TrimLines(lines));
    assert Schematics(lines) == ReadChunks(chunks);
    r := SolveChunks(chunks);
  }

  /** The schematics read from the lines, or the first refusal. */
  ghost function Schematics(lines: seq<string>): Result<seq<Chunk>>
  {
    ReadChunks(Chunks(TrimLines(lines)))
  }

  /** The part of `do_it` after the split into chunks, none of which holds
      an empty line. */
  method SolveChunks(chunks: seq<seq<string>>) returns (r: Result<nat>)
    requires chunks != [] && NoEmptyLine(chunks)
    ensures r.Ok? <==> ReadChunks(chunks).Ok? && |Sizes(ReadChunks(chunks).value)| == 1
    ensures r.Ok? ==> var read := ReadChunks(chunks).value;
      read != [] && read[0].height >= 2 &&
      r.value == FitCount(LocksOf(read), KeysOf(read), read[0].height - 2)
  {
    var classified := Classify(chunks);
    if classified.Err? {
      return Err(classified.msg);
    }
    var (locks, keys, height) := classified.value;
    FirstChunkHeight(chunks);
    var count := CountFits(locks, keys, height - 2);
    return Ok(count);
  }

  /** The first schematic read is at least two rows high. */
  lemma FirstChunkHeight(chunks: seq<seq<string>>)
    requires chunks != [] && NoEmptyLine(chunks)
    requires ReadChunks(chunks).Ok?
    ensures var read := ReadChunks(chunks).value;
      read != [] && read[0].height >= 2
  {
    ReadChunksEach(chunks);
    assert ReadChunk(chunks[0]).Ok?;
    assert chunks[0][0] != [];
    ChunkHeights(chunks[0]);
  }
}
