/** Disk compaction block by block: lay the files out as the disk map says,
    move the last occupied block into the first free one until the two scans
    meet, then sum position times file id over the leading occupied run. */
module Day09a {
  import opened Common
  import opened Text

  datatype PuzzleFile = PuzzleFile(index: nat, position: nat, len: nat)

  /** The first `n` characters of the disk map are decimal digits. */
  predicate DigitsBefore(s: string, n: nat)
  {
    n <= |s| && forall k :: 0 <= k < n ==> IsDigit(s[k])
  }

  /** A disk map the parser accepts: digits alternating file size and gap
      size, starting and ending with a file. */
  predicate WellFormed(s: string)
  {
    |s| % 2 == 1 && AllDigits(s)
  }

  /** Where the entry at slot `n` of the map starts: the sizes before it, added up. */
  function Offset(s: string, n: nat): nat
    requires DigitsBefore(s, n)
  {
    if n == 0 then 0 else Offset(s, n - 1) + DigitValue(s[n - 1])
  }

  lemma {:induction false} OffsetMonotone(s: string, a: nat, b: nat)
    requires a <= b && DigitsBefore(s, b)
    ensures Offset(s, a) <= Offset(s, b)
    decreases b
  {
    if a < b {
      OffsetMonotone(s, a, b - 1);
    }
  }

  /** File `j`: its size is digit `2j`, and it starts after every earlier file and gap. */
  function FileAt(s: string, j: nat): PuzzleFile
    requires DigitsBefore(s, 2 * j + 1)
  {
    PuzzleFile(j, Offset(s, 2 * j), DigitValue(s[2 * j]))
  }

  /** The first `n` files of the map. */
  function Files(s: string, n: nat): (r: seq<PuzzleFile>)
    requires n == 0 || DigitsBefore(s, 2 * n - 1)
    ensures |r| == n
  {
    seq(n, j requires 0 <= j < n => FileAt(s, j))
  }

  /** The layout loop of `do_it`: a missing first digit, a character that is
      not a digit, or a gap with no file after it is an error. */
  method ParseFiles(input: string) returns (r: Result<(seq<PuzzleFile>, nat)>)
    ensures r.Ok? <==> WellFormed(input)
    ensures r.Ok? ==> (DigitsBefore(input, |input|) &&
      r.value.0 == Files(input, (|input| + 1) / 2) && r.value.1 == Offset(input, |input|))
  {
    if |input| == 0 {
      return Err("index out of bounds");
    }
    if !IsDigit(input[0]) {
      return Err("invalid digit");
    }
    var files := [PuzzleFile(0, 0, DigitValue(input[0]))];
    var nextIndex := 1;
    var nextPosition := files[0].len;
    var i := 1;
    while i < |input|
      invariant i % 2 == 1 && DigitsBefore(input, i)
      invariant nextIndex == (i + 1) / 2 && files == Files(input, nextIndex)
      invariant nextPosition == Offset(input, i)
    {
      if !IsDigit(input[i]) {
        return Err("invalid digit");
      }
      var gap := DigitValue(input[i]);
      nextPosition := nextPosition + gap;
      if i + 1 >= |input| {
        return Err("index out of bounds");
      }
      if !IsDigit(input[i + 1]) {
        return Err("invalid digit");
      }
      var size := DigitValue(input[i + 1]);
      assert Files(input, nextIndex + 1) == files + [FileAt(input, nextIndex)];
      files := files + [PuzzleFile(nextIndex, nextPosition, size)];
      nextIndex := nextIndex + 1;
      nextPosition := nextPosition + size;
      i := i + 2;
    }
    return Ok((files, nextPosition));
  }

  predicate Covers(f: PuzzleFile, k: int)
  {
    f.position <= k < f.position + f.len
  }

  /** The id the block loop leaves at block `k`: that of the last file covering it. */
  function Owner(files: seq<PuzzleFile>, k: int): Option<nat>
  {
    if files == [] then None
    else if Covers(files[|files| - 1], k) then Some(files[|files| - 1].index)
    else Owner(files[..|files| - 1], k)
  }

  /** Files of a parsed map do not overlap, so block `k` holds the id of the
      one file covering it, and is free when none does. */
  lemma {:induction false} OwnerOfLayout(s: string, n: nat, k: int)
    requires n == 0 || DigitsBefore(s, 2 * n - 1)
    ensures Owner(Files(s, n), k).Some? ==>
      Owner(Files(s, n), k).value < n && Covers(FileAt(s, Owner(Files(s, n), k).value), k)
    ensures forall j :: 0 <= j < n && Covers(FileAt(s, j), k) ==> Owner(Files(s, n), k) == Some(j)
  {
    if n > 0 {
      assert Files(s, n)[..n - 1] == Files(s, n - 1);
      OwnerOfLayout(s, n - 1, k);
      forall j | 0 <= j < n - 1 && Covers(FileAt(s, j), k)
        ensures !Covers(FileAt(s, n - 1), k)
      {
        OffsetMonotone(s, 2 * j + 1, 2 * n - 2);
      }
    }
  }

  /** The first `total` blocks as the files leave them. */
  function DiskLayout(files: seq<PuzzleFile>, total: nat): (r: seq<Option<nat>>)
    ensures |r| == total
  {
    seq(total, k => Owner(files, k))
  }

  /** The blocks of the layout: `Some(id)` inside a file, `None` in the gaps. */
  method LayBlocks(files: seq<PuzzleFile>, total: nat) returns (blocks: array<Option<nat>>)
    requires forall j :: 0 <= j < |files| ==> files[j].position + files[j].len <= total
    ensures fresh(blocks) && blocks[..] == DiskLayout(files, total)
  {
    blocks := new Option<nat>[total](_ => None);
    for j := 0 to |files|
      invariant forall k :: 0 <= k < total ==> blocks[k] == Owner(files[..j], k)
    {
      var f := files[j];
      assert files[..j + 1][..j] == files[..j];
      for i := f.position to f.position + f.len
        invariant forall k :: 0 <= k < total ==>
          blocks[k] == if f.position <= k < i then Some(f.index) else Owner(files[..j], k)
      {
        blocks[i] := Some(f.index);
      }
    }
    assert files[..|files|] == files;
    assert blocks[..] == DiskLayout(files, total);
  }

  /** No free block comes before an occupied one. */
  predicate Compacted(s: seq<Option<nat>>)
  {
    forall i, j :: 0 <= i < j < |s| && s[i].None? ==> s[j].None?
  }

  /** The two-pointer loop from `fromStart = i` and `fromEnd = j`: an
      occupied slot at `i` is passed, a free slot at `j` is passed, and
      otherwise the block at `j` moves into the free slot at `i`. */
  function Compaction(s: seq<Option<nat>>, i: nat, j: nat): (r: seq<Option<nat>>)
    requires i <= j < |s|
    ensures |r| == |s|
    decreases j - i, if s[i].None? then 1 else 0
  {
    if i >= j then s
    else if s[i].Some? then Compaction(s, i + 1, j)
    else if s[j].None? then Compaction(s, i, j - 1)
    else Compaction(s[i := s[j]][j := None], i, j)
  }

  /** The disk after the loop of `do_it`, which starts at both ends. */
  function CompactDisk(s: seq<Option<nat>>): seq<Option<nat>>
  {
    if s == [] then s else Compaction(s, 0, |s| - 1)
  }

  /** The loop only moves ids: none is lost or duplicated. */
  lemma {:induction false} CompactionPermutes(s: seq<Option<nat>>, i: nat, j: nat)
    requires i <= j < |s|
    ensures multiset(Compaction(s, i, j)) == multiset(s)
    decreases j - i, if s[i].None? then 1 else 0
  {
    if i < j {
      if s[i].Some? {
        CompactionPermutes(s, i + 1, j);
      } else if s[j].None? {
        CompactionPermutes(s, i, j - 1);
      } else {
        var t := s[i := s[j]][j := None];
        assert t == s[i := s[j]][j := s[i]];
        CompactionPermutes(t, i, j);
      }
    }
  }

  /** Started with only occupied slots left of `i` and only free slots right
      of `j`, the loop leaves no free block before an occupied one. */
  lemma {:induction false} CompactionCompacts(s: seq<Option<nat>>, i: nat, j: nat)
    requires i <= j < |s|
    requires forall k :: 0 <= k < i ==> s[k].Some?
    requires forall k :: j < k < |s| ==> s[k].None?
    ensures Compacted(Compaction(s, i, j))
    decreases j - i, if s[i].None? then 1 else 0
  {
    if i < j {
      if s[i].Some? {
        CompactionCompacts(s, i + 1, j);
      } else if s[j].None? {
        CompactionCompacts(s, i, j - 1);
      } else {
        CompactionCompacts(s[i := s[j]][j := None], i, j);
      }
    }
  }

  /** An occupied block is never overwritten: its slot keeps it or is freed.
      A block that lands in a slot comes from a slot further right. */
  lemma {:induction false} CompactionMovesLeft(s: seq<Option<nat>>, i: nat, j: nat)
    requires i <= j < |s|
    ensures var r := Compaction(s, i, j);
      forall k :: 0 <= k < |s| && s[k].Some? ==> r[k] == s[k] || r[k].None?
    ensures var r := Compaction(s, i, j);
      forall k :: 0 <= k < |s| && r[k].Some? && r[k] != s[k] ==> exists m :: k < m <= j && s[m] == r[k]
    decreases j - i, if s[i].None? then 1 else 0
  {
    if i < j {
      if s[i].Some? {
        CompactionMovesLeft(s, i + 1, j);
      } else if s[j].None? {
        CompactionMovesLeft(s, i, j - 1);
      } else {
        var t := s[i := s[j]][j := None];
        CompactionMovesLeft(t, i, j);
        var r := Compaction(t, i, j);
        assert r == Compaction(s, i, j);
        forall k | 0 <= k < |s| && s[k].Some?
          ensures r[k] == s[k] || r[k].None?
        {
          assert k == j || t[k] == s[k];
        }
        forall k | 0 <= k < |s| && r[k].Some? && r[k] != s[k]
          ensures exists m :: k < m <= j && s[m] == r[k]
        {
          if r[k] == t[k] {
            assert k == i && s[j] == r[k];
          } else {
            var m :| k < m <= j && t[m] == r[k];
            if m == i {
              assert s[j] == r[k];
            } else {
              assert s[m] == r[k];
            }
          }
        }
      }
    }
  }

  /** The loop of `do_it`: the rightmost occupied block moves into the
      leftmost free block until the two ends meet. */
  method Compact(blocks: array<Option<nat>>)
    requires blocks.Length >= 1
    modifies blocks
    ensures blocks[..] == CompactDisk(old(blocks[..]))
  {
    var fromStart := 0;
    var fromEnd := blocks.Length - 1;
    while fromStart < fromEnd
      invariant 0 <= fromStart <= fromEnd < blocks.Length
      invariant Compaction(blocks[..], fromStart, fromEnd) == CompactDisk(old(blocks[..]))
      decreases fromEnd - fromStart, if blocks[fromStart].None? then 1 else 0
    {
      if blocks[fromStart].Some? {
        fromStart := fromStart + 1;
        continue;
      }
      if blocks[fromEnd].None? {
        fromEnd := fromEnd - 1;
        continue;
      }
      ghost var before := blocks[..];
      blocks[fromStart] := blocks[fromEnd];
      blocks[fromEnd] := None;
      assert blocks[..] == before[fromStart := before[fromEnd]][fromEnd := None];
    }
  }

  /** The compacted disk holds the same blocks with no free block before an
      occupied one; occupied blocks only ever move left. */
  lemma CompactedDisk(s: seq<Option<nat>>)
    ensures var r := CompactDisk(s);
      |r| == |s| && multiset(r) == multiset(s) && Compacted(r) &&
      (forall k :: 0 <= k < |s| && s[k].Some? ==> r[k] == s[k] || r[k].None?) &&
      (forall k :: 0 <= k < |s| && r[k].Some? && r[k] != s[k] ==> exists m :: k < m < |s| && s[m] == r[k])
  {
    if s != [] {
      CompactionPermutes(s, 0, |s| - 1);
      CompactionCompacts(s, 0, |s| - 1);
      CompactionMovesLeft(s, 0, |s| - 1);
    }
  }

  function BlockValue(b: Option<nat>): nat
  {
    match b
    case None => 0
    case Some(id) => id
  }

  /** Position times id over the first `n` blocks, a free block counting 0. */
  function WeightedSum(s: seq<Option<nat>>, n: nat): nat
    requires n <= |s|
  {
    if n == 0 then 0 else WeightedSum(s, n - 1) + (n - 1) * BlockValue(s[n - 1])
  }

  /** The length of the leading run of occupied blocks (the `take_while`). */
  function LeadingRun(s: seq<Option<nat>>): (n: nat)
    ensures n <= |s| && forall i :: 0 <= i < n ==> s[i].Some?
    ensures n < |s| ==> s[n].None?
  {
    if s == [] || s[0].None? then 0 else 1 + LeadingRun(s[1..])
  }

  /** The checksum: only the leading occupied run counts. */
  function Checksum(s: seq<Option<nat>>): nat
  {
    WeightedSum(s, LeadingRun(s))
  }

  /** On a compacted disk the leading run is every occupied block, so the
      checksum is the weighted sum over the whole disk. */
  lemma CompactedChecksum(s: seq<Option<nat>>)
    requires Compacted(s)
    ensures Checksum(s) == WeightedSum(s, |s|)
  {
    TailAddsNothing(s, LeadingRun(s), |s|);
  }

  lemma {:induction false} TailAddsNothing(s: seq<Option<nat>>, m: nat, n: nat)
    requires m <= n <= |s| && forall i :: m <= i < n ==> s[i].None?
    ensures WeightedSum(s, n) == WeightedSum(s, m)
    decreases n
  {
    if m < n {
      TailAddsNothing(s, m, n - 1);
    }
  }

  /** Parse the map, lay out and compact the blocks, and take the checksum.
      A map of total size 0 fails where the source's `blocks.len() - 1` would
      underflow. */
  method CompactMap(input: string) returns (r: Result<nat>)
    ensures r.Ok? <==> WellFormed(input) && Offset(input, |input|) > 0
    ensures r.Ok? ==> (WellFormed(input) &&
      var total := Offset(input, |input|);
      var disk := CompactDisk(DiskLayout(Files(input, (|input| + 1) / 2), total));
      r.value == Checksum(disk) == WeightedSum(disk, total))
  {
    var parsed := ParseFiles(input);
    if parsed.Err? {
      return Err(parsed.msg);
    }
    var (files, total) := parsed.value;
    if total == 0 {
      return Err("attempt to subtract with overflow");
    }
    forall j | 0 <= j < |files| ensures files[j].position + files[j].len <= total {
      OffsetMonotone(input, 2 * j + 1, |input|);
    }
    var blocks := LayBlocks(files, total);
    Compact(blocks);
    r := Ok(Checksum(blocks[..]));
    CompactedDisk(DiskLayout(files, total));
    CompactedChecksum(blocks[..]);
  }

  /** The disk map of the input: the lines trimmed and joined, then trimmed again. */
  function DiskMap(lines: seq<string>): string
  {
    Trim(Flatten(TrimLines(lines)))
  }

  /** The solver: compacts the disk map of the input. */
  method Solve(lines: seq<string>) returns (r: Result<nat>)
    ensures var input := DiskMap(lines);
      r.Ok? <==> WellFormed(input) && Offset(input, |input|) > 0
    ensures var input := DiskMap(lines);
      r.Ok? ==> (var total := Offset(input, |input|);
        r.value == Checksum(CompactDisk(DiskLayout(Files(input, (|input| + 1) / 2), total))))
  {
    r := CompactMap(DiskMap(lines));
  }
}
