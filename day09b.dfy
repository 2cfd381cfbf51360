/** Disk compaction file by file: each file, highest id first, moves once
    into the leftmost gap before it that is large enough, and the checksum
    adds position times id over every block of every file. */
module Day09b {
  import opened Common
  import opened Text
  import opened Day09a

  datatype Gap = Gap(position: nat, len: nat)

  /** Gap `j`: its size is digit `2j + 1`, and it starts right after file `j`. */
  function GapAt(s: string, j: nat): Gap
    requires DigitsBefore(s, 2 * j + 2)
  {
    Gap(Offset(s, 2 * j + 1), DigitValue(s[2 * j + 1]))
  }

  /** The first `n` gaps of the map. */
  function Gaps(s: string, n: nat): (r: seq<Gap>)
    requires DigitsBefore(s, 2 * n)
    ensures |r| == n
  {
    seq(n, j requires 0 <= j < n => GapAt(s, j))
  }

  /** The layout loop of `do_it`, recording the gaps as well as the files. */
  method ParseLayout(input: string) returns (r: Result<(seq<PuzzleFile>, seq<Gap>)>)
    ensures r.Ok? <==> WellFormed(input)
    ensures r.Ok? ==> (DigitsBefore(input, |input|) &&
      r.value.0 == Files(input, (|input| + 1) / 2) && r.value.1 == Gaps(input, |input| / 2))
  {
    if |input| == 0 {
      return Err("index out of bounds");
    }
    if !IsDigit(input[0]) {
      return Err("invalid digit");
    }
    var files := [PuzzleFile(0, 0, DigitValue(input[0]))];
    var nextIndex := 1;
    var nextPosition := files[0].len;
    var gaps := [];
    var i := 1;
    while i < |input|
      invariant i % 2 == 1 && DigitsBefore(input, i)
      invariant nextIndex == (i + 1) / 2 && files == Files(input, nextIndex)
      invariant gaps == Gaps(input, nextIndex - 1)
      invariant nextPosition == Offset(input, i)
    {
      if !IsDigit(input[i]) {
        return Err("invalid digit");
      }
      var gap := DigitValue(input[i]);
      assert Gaps(input, nextIndex) == gaps + [GapAt(input, nextIndex - 1)];
      gaps := gaps + [Gap(nextPosition, gap)];
      nextPosition := nextPosition + gap;
      if i + 1 >= |input| {
        return Err("index out of bounds");
      }
      if !IsDigit(input[i + 1]) {
        return Err("invalid digit");
      }
      var size := DigitValue(input[i + 1]);
      assert Files(input, nextIndex + 1) == files + [FileAt(input, nextIndex)];
      files := files + [PuzzleFile(nextIndex, nextPosition, size)];
      nextIndex := nextIndex + 1;
      nextPosition := nextPosition + size;
      i := i + 2;
    }
    return Ok((files, gaps));
  }

  /** A gap can take the file: it lies strictly before it and is long enough. */
  predicate Fits(g: Gap, f: PuzzleFile)
  {
    g.position < f.position && g.len >= f.len
  }

  /** The `find` over the gaps: the first one that fits, if any. */
  function FirstFit(gaps: seq<Gap>, f: PuzzleFile): (r: Option<nat>)
    ensures r.Some? ==> r.value < |gaps| && Fits(gaps[r.value], f)
    ensures r.Some? ==> forall k :: 0 <= k < r.value ==> !Fits(gaps[k], f)
    ensures r.None? <==> forall k :: 0 <= k < |gaps| ==> !Fits(gaps[k], f)
  {
    if gaps == [] then None
    else if Fits(gaps[0], f) then Some(0)
    else match FirstFit(gaps[1..], f)
      case None => None
      case Some(k) => Some(k + 1)
  }

  /** One turn of the loop, for file `j`: it takes the position of the first
      gap that fits, which loses the file's length, and starts later only
      when it was strictly longer than the file. */
  function MoveFile(files: seq<PuzzleFile>, gaps: seq<Gap>, j: nat): (seq<PuzzleFile>, seq<Gap>)
    requires j < |files|
  {
    var f := files[j];
    match FirstFit(gaps, f)
    case None => (files, gaps)
    case Some(g) =>
      var gap := gaps[g];
      var moved := PuzzleFile(f.index, gap.position, f.len);
      var shrunk := Gap(if gap.len > f.len then gap.position + f.len else gap.position, gap.len - f.len);
      (files[j := moved], gaps[g := shrunk])
  }

  /** The files `n - 1` down to `0` processed in turn. */
  function CompactFrom(files: seq<PuzzleFile>, gaps: seq<Gap>, n: nat): (seq<PuzzleFile>, seq<Gap>)
    requires n <= |files|
    decreases n
  {
    if n == 0 then (files, gaps)
    else
      var (files', gaps') := MoveFile(files, gaps, n - 1);
      CompactFrom(files', gaps', n - 1)
  }

  /** What a turn keeps: only file `j` and the gap it used change; the file
      keeps its id and length and moves strictly left into the first gap that
      fits, or stays when none does; the gap only shrinks, and never moves left. */
  lemma MoveFileKeeps(files: seq<PuzzleFile>, gaps: seq<Gap>, j: nat)
    requires j < |files|
    ensures var (files', gaps') := MoveFile(files, gaps, j);
      |files'| == |files| && |gaps'| == |gaps| &&
      (forall k :: 0 <= k < |files| && k != j ==> files'[k] == files[k]) &&
      files'[j].index == files[j].index && files'[j].len == files[j].len &&
      (files'[j] == files[j] <==> FirstFit(gaps, files[j]).None?) &&
      (FirstFit(gaps, files[j]).Some? ==>
        files'[j].position == gaps[FirstFit(gaps, files[j]).value].position < files[j].position) &&
      forall k :: 0 <= k < |gaps| ==>
        gaps'[k].len <= gaps[k].len && gaps'[k].position >= gaps[k].position &&
        gaps'[k].position + gaps'[k].len <= gaps[k].position + gaps[k].len
  {
  }

  /** Over the whole pass ids and lengths never change, files never move
      right, and gaps never grow. */
  lemma {:induction false} CompactKeeps(files: seq<PuzzleFile>, gaps: seq<Gap>, n: nat)
    requires n <= |files|
    ensures var (files', gaps') := CompactFrom(files, gaps, n);
      |files'| == |files| && |gaps'| == |gaps| &&
      (forall k :: 0 <= k < |files| ==>
        files'[k].index == files[k].index && files'[k].len == files[k].len &&
        files'[k].position <= files[k].position) &&
      (forall k :: n <= k < |files| ==> files'[k] == files[k]) &&
      forall k :: 0 <= k < |gaps| ==> gaps'[k].len <= gaps[k].len
    decreases n
  {
    if n > 0 {
      MoveFileKeeps(files, gaps, n - 1);
      var (files1, gaps1) := MoveFile(files, gaps, n - 1);
      CompactKeeps(files1, gaps1, n - 1);
    }
  }

  /** The `for file in files.iter_mut().rev()` loop. */
  method CompactFiles(files: seq<PuzzleFile>, gaps: seq<Gap>) returns (files': seq<PuzzleFile>, gaps': seq<Gap>)
    ensures (files', gaps') == CompactFrom(files, gaps, |files|)
  {
    files', gaps' := files, gaps;
    var j: nat := |files|;
    while j > 0
      invariant j <= |files| == |files'|
      invariant CompactFrom(files', gaps', j) == CompactFrom(files, gaps, |files|)
    {
      j := j - 1;
      ghost var before := (files', gaps');
      var f := files'[j];
      var fit := FirstFit(gaps', f);
      if fit.Some? {
        var g := fit.value;
        var gap := gaps'[g];
        files' := files'[j := PuzzleFile(f.index, gap.position, f.len)];
        if gap.len > f.len {
          gap := gap.(position := gap.position + f.len);
        }
        gaps' := gaps'[g := gap.(len := gap.len - f.len)];
      }
      assert (files', gaps') == MoveFile(before.0, before.1, j);
    }
  }

  /** Position times id over the blocks `position .. position + len` of a file. */
  function FileChecksum(f: PuzzleFile): nat
  {
    RangeSum(f.position, f.len) * f.index
  }

  /** `start + (start + 1) + ... + (start + len - 1)`. */
  function RangeSum(start: nat, len: nat): nat
  {
    if len == 0 then 0 else RangeSum(start, len - 1) + (start + len - 1)
  }

  /** Gauss's closed form for the positions a file covers. */
  lemma {:induction false} RangeSumClosed(start: nat, len: nat)
    ensures 2 * RangeSum(start, len) == len * (2 * start + len - 1)
  {
    if len > 0 {
      RangeSumClosed(start, len - 1);
    }
  }

  /** The checksum: every file, wherever it ended up. */
  function Checksum(files: seq<PuzzleFile>): nat
  {
    if files == [] then 0 else Checksum(files[..|files| - 1]) + FileChecksum(files[|files| - 1])
  }

  /** The checksum counts each file by its own blocks only: files that did
      not change contribute the same. */
  lemma {:induction false} ChecksumSwap(files: seq<PuzzleFile>, j: nat, f: PuzzleFile)
    requires j < |files|
    ensures Checksum(files[j := f]) == Checksum(files) - FileChecksum(files[j]) + FileChecksum(f)
  {
    var n := |files|;
    if j < n - 1 {
      assert files[j := f][..n - 1] == files[..n - 1][j := f];
      ChecksumSwap(files[..n - 1], j, f);
    } else {
      assert files[j := f][..n - 1] == files[..n - 1];
    }
  }

  /** The checksum of a well-formed map once every file has had its turn. */
  function MapChecksum(input: string): nat
    requires WellFormed(input)
  {
    var files := Files(input, (|input| + 1) / 2);
    Checksum(CompactFrom(files, Gaps(input, |input| / 2), |files|).0)
  }

  /** Parse, compact and take the checksum of a trimmed disk map. */
  method CompactMap(input: string) returns (r: Result<nat>)
    ensures r.Ok? <==> WellFormed(input)
    ensures r.Ok? ==> WellFormed(input) && r.value == MapChecksum(input)
  {
    var parsed := ParseLayout(input);
    if parsed.Err? {
      return Err(parsed.msg);
    }
    var (files, gaps) := parsed.value;
    var files', gaps' := CompactFiles(files, gaps);
    return Ok(Checksum(files'));
  }

  /** The solver: the input lines trimmed and joined, then trimmed again. */
  method Solve(lines: seq<string>) returns (r: Result<nat>)
    ensures r.Ok? <==> WellFormed(DiskMap(lines))
    ensures r.Ok? ==>
      (WellFormed(DiskMap(lines)) && r.value == MapChecksum(DiskMap(lines)))
  {
    r := CompactMap(DiskMap(lines));
  }
}
