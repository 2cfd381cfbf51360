# Advent of Code 2024 solvers, modelled in Dafny

This project models the Rust solvers of one Advent of Code 2024 repository,
one Dafny module per solver (`Day01a` to `Day25a`), on top of a few shared
modules:

- `Common`: the `Result` and `Option` wrappers, the `collect::<Result<Vec<_>>>()`
  fold, sums, powers and row-major flattening.
- `Text`: what the solvers use of Rust's string library: `trim`, the
  blank-line filter every `do_it` applies, `split`, whitespace splitting,
  `parse` for unsigned and signed integer types of a given width, and
  decimal rendering.
- `Grid2D`: points, the four directions and their turns, row-major slots.
- `MinQueue`: the linear `max_by` scan plus `swap_remove` that the
  shortest-path searches of days 16, 18 and 20 use as a priority queue.
- `Sorting`: `sort()` as the ascending permutation of a sequence.

A solver's `do_it` is its `Solve` member, which takes the lines of the
puzzle input and returns the answer or the error the Rust code returns. There
are three exceptions:
- Day05a.Solve and Day05b.Solve take the rules and updates already parsed.
- In Day21a, `do_it` is `DoIt`, and `Solve` is the search for one code.
- day24b.rs has no finished `do_it`. Where the
Rust code works in place, the model does too: the solvers' structs that
change are classes with `seq`, `map` or array fields and `modifies` clauses,
and their loops are `while`/`for` loops with invariants. Each such method is
proved against a functional definition of what it computes, and the puzzle's
own notion is then proved about that definition. Examples are the least-cost
routes of day 16, the shortest distances of day 20, the triangles of day 23
and the adder trees of day 24. Pure helpers (turns, indices, parsers,
orderings) are functions with lemmas that pair them with an inverse, an
invariant or an independent definition.

Overflow panics, and panics on malformed input, are modelled as `Err`
results. The source's non-terminating loops are bounded by an explicit
parameter, and a loop that would spin forever is reported as such. Both
choices are listed under "Left out".

## Model

| member | source | states |
|---|---|---|
| Sorting.Sort | rust/src/day01a.rs:92-93 | `sort()` returns an ascending permutation of its input |
| Sorting.SortedUnique | rust/src/day01a.rs:92-93 | two ascending sequences with the same elements are equal, so the sorted column is determined by its contents |
| Sorting.SortDependsOnlyOnElements | rust/src/day01a.rs:92-93 | sorting two lists with the same elements gives the same list |
| Day01a.MatchPair | rust/src/day01a.rs:50-67 | a match of `^(\d+)\s+(\d+)$` yields two non-empty digit strings at the two ends of the line with only whitespace between them |
| Day01a.MatchPairComplete | rust/src/day01a.rs:50-67 | every line of digits, whitespace, digits is matched, and the captures are exactly the two digit strings |
| Day01a.MatchLine | rust/src/day01a.rs:59-69 | the first pass over a line: `Ok(None)` exactly when it is blank after trimming, two non-empty digit strings when it matches, and otherwise the error `bad line: ` followed by the trimmed line |
| Day01a.MatchLineRoundTrip | rust/src/day01a.rs:59-69 | two digit strings with whitespace between them are captured as themselves |
| Common.Present | rust/src/day01a.rs:73-76 | `flatten` drops the blank lines' `None`s, so no more pairs than lines remain |
| Common.PresentAllSome | rust/src/day01a.rs:73-76 | with no blank line, flattening keeps every pair in order |
| Common.PresentAllNone | rust/src/day01a.rs:73-76 | with only blank lines, flattening leaves nothing |
| Day01a.MatchLines | rust/src/day01a.rs:57-76 | the matched pairs, at most one per line |
| Day01a.MatchLinesOk | rust/src/day01a.rs:57-72 | the first pass succeeds exactly when every line is blank or matches |
| Day01a.Lefts | rust/src/day01a.rs:79 | `unzip`'s left half: the left capture of each pair, in order |
| Day01a.Rights | rust/src/day01a.rs:79 | `unzip`'s right half: the right capture of each pair, in order |
| Day01a.ParseColumns | rust/src/day01a.rs:57-89 | on success the two columns have equal length, at most one entry per line, and hold values below 2^32 |
| Day01a.BlankInput | rust/src/day01a.rs:62-64 | an input of blank lines gives two empty columns |
| Day01a.FirstBadLine | rust/src/day01a.rs:57-89 | every line is matched before any number is parsed: the first line that does not match decides the error, whatever number errors come after or before it |
| Day01a.Render | rust/src/day01a.rs:50 | one line per pair, the two values in decimal with whitespace between them |
| Day01a.ParseColumnsRoundTrip | rust/src/day01a.rs:57-89 | two columns of u32 values rendered one pair per line parse back to the same columns |
| Day01a.RenderedLinesMatch | rust/src/day01a.rs:57-76 | the rendered lines are matched into the decimal strings of each pair, in order |
| Day01a.ParsedColumn | rust/src/day01a.rs:81-88 | the decimal strings of u32 values parse back to the values |
| Day01a.TotalDistance | rust/src/day01a.rs:92-98 | the sum of `abs_diff` over the sorted columns paired by `zip` is never negative |
| Day01a.TotalDistanceIgnoresOrder | rust/src/day01a.rs:92-98 | the answer depends only on the multisets of the two columns, not on the order of the input lines |
| Day01a.TotalDistanceSameIds | rust/src/day01a.rs:92-98 | two columns with the same ids are at total distance 0 |
| Day01a.SumAbsDiffSelf | rust/src/day01a.rs:96-98 | pairing a column with itself sums to 0 |
| Day01a.Solve | rust/src/day01a.rs:49-99 | the solver's answer is never negative |
| Day01b.Counts | src/day01b.rs:91-98 | the counting fold has a key for exactly the values of the right column, mapped to each value's multiplicity |
| Day01b.SimilarityIsWeightedOccurrences | src/day01b.rs:100-107 | scoring the left column against the count map equals the sum of each left value times its multiplicity on the right |
| Day01b.DisjointColumnsScoreZero | src/day01b.rs:103-106 | left values missing from the right column (the `None => 0` arm) contribute 0 |
| Day01b.SimilarityAppend | src/day01b.rs:100-107 | the score is additive over the left column |
| Day01b.Solve | src/day01b.rs:49-108 | a successful answer is the weighted-occurrence sum of the two columns read by the same line parser as part one |
| Day02a.ParseReport | rust/src/day02a.rs:58-71 | a line gives `Ok(None)` exactly when it is blank after trimming; a report holds at least one level |
| Day02a.ParseAll | rust/src/day02a.rs:66-68 | on success there is one i32 per whitespace-separated word, each the parse of that word |
| Day02a.ParseReports | rust/src/day02a.rs:56-77 | on success there is one report per non-blank line, in order, and each is the i32 parse of that trimmed line's words (so at least one level) |
| Day02a.ParseReportsOk | rust/src/day02a.rs:56-77 | parsing succeeds exactly when every line parses, and otherwise fails with the error of the first line that does not |
| Day02a.SafeIffMonotone | rust/src/day02a.rs:81-102 | the loop's rule (not both rising and falling steps, every step 1 to 3 apart) holds exactly when the report strictly rises or strictly falls in steps of 1 to 3 |
| Day02a.ReportIsSafe | rust/src/day02a.rs:81-102 | the counting loop returns true exactly when the report is safe |
| Day02a.CountSafe | rust/src/day02a.rs:79-103 | the count is the number of safe reports |
| Day02a.Solve | rust/src/day02a.rs:48-104 | the answer exists exactly when the reports parse, is then the number of safe reports, and otherwise is the parse error |
| Day02b.WithoutIndex | rust/src/day02b.rs:85-100 | `duplicate_without_index` is one element shorter when the index is in range, and as long otherwise |
| Day02b.WithoutIndexSlices | rust/src/day02b.rs:85-100 | `duplicate_without_index` drops exactly the element at the index, keeping the others in order, and copies the input when the index is out of range |
| Day02b.ShortReportsTolerated | rust/src/day02b.rs:136-148 | every report of one or two levels passes after one removal |
| Day02b.SafeDropFirst | rust/src/day02b.rs:136-148 | a safe report stays safe without its first level, so the removal loop only widens the plain rule |
| Day02b.SomeRemovalSafe | rust/src/day02b.rs:139-146 | the removal loop returns true exactly when dropping some one level leaves a safe report |
| Day02b.ReportIsTolerated | rust/src/day02b.rs:136-148 | the filter returns true exactly when the report is safe as it is or after removing one level |
| Day02b.CountTolerated | rust/src/day02b.rs:134-149 | the count is the number of reports tolerated by the filter |
| Day02b.Solve | rust/src/day02b.rs:103-150 | the answer exists exactly when the reports parse, is then the number of tolerated reports, and otherwise is the parse error |
| Day03b.MatchMul | rust/src/day03b.rs:68-84 | a match of `^mul\(([0-9]{1,3}),([0-9]{1,3})\)` starts with `mul(` and captures two values below 1000 |
| Day03b.MatchMulComplete | rust/src/day03b.rs:68-84 | `mul(a,b)` with a and b below 1000 is matched whatever follows it, with captures a and b |
| Day03b.EnabledAtIff | rust/src/day03b.rs:69-76 | multiplication is enabled at a position exactly when every earlier `don't()` is followed by a `do()` before that position |
| Day03b.NotBoth | rust/src/day03b.rs:72-75 | no position starts both `do()` and `don't()`, so the order of the two tests does not matter |
| Day03b.NoDontCountsEveryMul | rust/src/day03b.rs:69-86 | without any `don't()` the sum counts every `mul(a,b)` instruction |
| Day03b.ScanStep | rust/src/day03b.rs:71-85 | one loop position: `do()` enables, `don't()` disables, and otherwise an enabled match adds a*b |
| Day03b.Scan | rust/src/day03b.rs:69-87 | the loop's sum equals the sum of the enabled multiplications over every position of the memory |
| Day03b.Solve | rust/src/day03b.rs:48-88 | the answer is the scan over the trimmed lines joined with nothing between them |
| Day04a.NewGrid | rust/src/day04a.rs:83-104 | the grid is built exactly when there is at least one line and all lines have one width; it holds the lines as rows |
| Day04a.GetAt | rust/src/day04a.rs:106-112 | a cell is returned exactly when the point lies inside the grid |
| Day04a.IsWordIff | rust/src/day04a.rs:114-121 | `is_word` holds exactly when every letter of the word sits at start + i * direction inside the grid |
| Day04a.CountWord | rust/src/day04a.rs:156-173 | the triple loop counts exactly the (x, y, direction) triples at which the word is spelled |
| Day04a.Solve | rust/src/day04a.rs:125-174 | the solver fails exactly on an empty or ragged grid, and otherwise counts the occurrences of "XMAS" in the eight directions |
| Day04b.MasCells | rust/src/day04b.rs:124-143 | a "MAS" match puts M, A and S on three consecutive cells along the direction |
| Day04b.PartnerIsInvolution | rust/src/day04b.rs:133-146 | every cross found from one diagonal is found again from its perpendicular partner, which is a different (start, direction) and leads back, so each X is counted exactly twice and `count / 2` counts X shapes |
| Day04b.CountCrosses | rust/src/day04b.rs:177-192 | the triple loop counts exactly the (x, y, diagonal) triples at which `is_cross` holds |
| Day04b.Solve | rust/src/day04b.rs:150-194 | the solver fails exactly on an empty or ragged grid, and otherwise returns half the number of crosses over the four diagonals |
| Day05a.RightsOfIff | rust/src/day05a.rs:128-134 | the pages pushed under a left page are exactly the right pages of that page's rules |
| Day05a.AllowedIff | rust/src/day05a.rs:128-134 | looking up a pair in the grouped rules succeeds exactly when that rule is in the rule list |
| Day05a.GroupRules | rust/src/day05a.rs:128-134 | the grouping loop files every rule under its left page and nothing else |
| Day05a.IsSequenceValid | rust/src/day05a.rs:63-79 | `is_sequence_valid` accepts an update exactly when every pair of its pages, taken in order, has a rule |
| Day05a.ShortUpdatesInOrder | rust/src/day05a.rs:63-79 | updates of zero or one page are always in order |
| Day05a.InOrderNeedsRules | rust/src/day05a.rs:74-76 | in an in-order update every page but the last has rules, which is why a page without rules fails unless it is last |
| Day05a.Solve | rust/src/day05a.rs:128-149 | the answer is the sum of the middle pages of exactly the in-order updates |
| Day05b.IsValid | rust/src/day05b.rs:79-112 | `is_valid` accepts exactly the updates in which every adjacent pair has a rule |
| Day05b.InOrderIsChained | rust/src/day05b.rs:102-112 | an update in order under part one's all-pairs rule also passes the adjacent-pairs check |
| Day05b.ChainedNotInOrder | rust/src/day05b.rs:102-112 | the adjacent-pairs check is weaker than the all-pairs rule: [1, 2, 3] with rules "1 before 2" and "2 before 3" passes it but is not in order |
| Day05b.ReorderingIsPermutation | rust/src/day05b.rs:114-177 | a reordering of an update without repeated pages is a permutation of it |
| Day05b.BacktrackStops | rust/src/day05b.rs:124-135 | popping the partial order until its last page is the entry's predecessor stops exactly at the prefix the entry was pushed from |
| Day05b.Backtrack | rust/src/day05b.rs:124-135 | the inner pop loop restores the partial order to the entry's prefix |
| Day05b.PushSuccessors | rust/src/day05b.rs:160-169 | pushing the allowed unused successors keeps the search invariant (every stack entry extends its recorded prefix by an allowed page of the update) and adds less than one level of the termination weight |
| Day05b.PopEntryAndExtend | rust/src/day05b.rs:118-141 | popping an entry and appending its page keeps the search invariant and strictly lowers the termination weight |
| Day05b.NewWithNumbers | rust/src/day05b.rs:114-177 | a returned sequence has the update's length, no repeated page, only the update's pages and a rule for every adjacent pair; the depth-first search always terminates |
| Day05b.Unchained | rust/src/day05b.rs:239-241 | the filter keeps only updates that fail `is_valid`, in their input order |
| Day05b.UnchainedStep | rust/src/day05b.rs:239-241 | the filter over one more update appends it exactly when it fails the check |
| Day05b.RebuiltPush | rust/src/day05b.rs:242-247 | appending a reordered update adds its middle page to the sum |
| Day05b.ChainedInOrder | rust/src/day05b.rs:102-112 | when the rules order the pages transitively, an update with a rule for every adjacent pair has a rule for every pair, as part one demands |
| Day05b.InOrderUnique | rust/src/day05b.rs:114-177 | two arrangements of the same pages with a rule for every pair are equal when no two pages are ruled both ways |
| Day05b.ReorderingUnique | rust/src/day05b.rs:114-177 | when the rules order an update's distinct pages strictly and totally, it has exactly one valid reordering, so the search's choice is forced |
| Day05b.RankOf | rust/src/day05b.rs:114-177 | in that reordering the page at position i is preceded, by the rules, by exactly i pages of the update |
| Day05b.MiddleByRank | rust/src/day05b.rs:242-247 | the middle page of the reordering is the one page of the update that exactly half the other pages precede |
| Day05b.RebuiltUnique | rust/src/day05b.rs:239-247 | when every failing update is totally ordered by the rules, the list of rebuilt updates is unique and each middle page is the page ranked at half its update's length |
| Day05b.Solve | rust/src/day05b.rs:239-247 | an error means some update fails the check (and its search found no ordering); on success each failing update is replaced by a valid reordering of it, in order, and the answer sums their middle pages; when the rules order each failing update totally, that list is the only possible one and each summed page is the one preceded by half its update |
| Day06b.ObstacleAt | rust/src/day06b.rs:198-204 | `point_is_obstacle` is false off the map |
| Day06b.MarkAt | rust/src/day06b.rs:206-220 | setting a cell makes exactly that in-bounds cell true and leaves every other cell as it was; off-map points change nothing |
| Day06b.NextGuard | rust/src/day06b.rs:222-230 | one step of `advance`: the guard turns right in place exactly when it does not move, moves at most one cell, and never walks onto an obstacle |
| Day06b.CycleNeverEscapes | rust/src/day06b.rs:239-243 | when the guard returns to a state already on an in-bounds path, the walk stays on that path for ever and never leaves the map |
| Day06b.OnlyCellsAheadMatter | rust/src/day06b.rs:299-309 | an extra obstacle on a cell the guard never faces does not change whether it escapes, so the candidates `position + direction` of the path are the only cells worth trying |
| Day06b.PatrolEscapes | rust/src/day06b.rs:233-248 | along a complete patrol, the guard escapes exactly when the last recorded state is off the map |
| Day06b.SamePatrol | rust/src/day06b.rs:299-309 | an obstacle off the faced cells leaves the whole recorded walk unchanged |
| Day06b.State.AddObstacle | rust/src/day06b.rs:206-210 | `add_obstacle` marks the cell in `data` and changes nothing else |
| Day06b.State.Visit | rust/src/day06b.rs:216-220 | `visit` marks the cell in `visited` and changes nothing else |
| Day06b.State.Advance | rust/src/day06b.rs:222-230 | `advance` replaces the guard by its next state and marks the new cell visited when the guard moved |
| Day06b.State.FindPath | rust/src/day06b.rs:233-248 | `find_path` returns the patrol from the current guard, and reports a loop exactly when the guard never leaves the map |
| Day06b.TrackStep | rust/src/day06b.rs:239-246 | each new state appended to the path keeps the path and the set in step and shrinks the set of unseen in-bounds states, which bounds the loop |
| Day06b.TrackedPatrol | rust/src/day06b.rs:239-247 | when the loop stops, the path is a complete patrol and the loop flag means the guard never escapes |
| Day06b.InAllStates | rust/src/day06b.rs:239-246 | the in-bounds guard states are finitely many, so the patrol loop terminates |
| Day06b.TrapsStep | rust/src/day06b.rs:301-316 | counting the trapping candidates one at a time adds one exactly for a candidate that traps the guard |
| Day06b.CountLoopingObstacles | rust/src/day06b.rs:299-316 | the count is the number of distinct cells ahead of the guard's path where one extra obstacle makes the guard loop for ever |
| Day06b.TrialTraps | rust/src/day06b.rs:307-309 | trying one obstacle on a copy reports a loop exactly when that obstacle traps the guard |
| Day06b.NoProblem | rust/src/day06b.rs:119-174 | the cell scan finds no problem exactly when every character is a tile and there is at most one guard |
| Day06b.ProblemPersists | rust/src/day06b.rs:119-174 | the first problem found in a prefix of the map is the first problem of the whole map, so errors are reported in scan order |
| Day06b.ReadLayout | rust/src/day06b.rs:108-192 | the map reads exactly when the non-empty lines share one width, every cell is a tile and there is exactly one guard; the guard then starts on the map on a free cell |
| Day06b.ScanOrderErrors | rust/src/day06b.rs:165-169 | on `^^x` the second guard is reported before the unknown character, and on `^x^` the unknown character comes first |
| Day06b.ReadLayoutCells | rust/src/day06b.rs:119-174 | a cell of the read map is an obstacle exactly when its character is `#`, and the guard faces the way its character points |
| Day06b.KeepNonEmpty | rust/src/day06b.rs:109-112 | the filter keeps exactly the non-empty lines in order |
| Day06b.ScanLayout | rust/src/day06b.rs:108-192 | the parsing loops give the layout or the first error of the layout function |
| Day06b.HasUniqueWidth | rust/src/day06b.rs:114-115 | the width check passes exactly when there is at least one row and all rows have one length |
| Day06b.ScanRows | rust/src/day06b.rs:119-174 | the row loop either scans every cell or returns the first problem in scan order |
| Day06b.ScanRow | rust/src/day06b.rs:120-173 | one row extends the scanned prefix by its width, or returns the first problem |
| Day06b.ScanCell | rust/src/day06b.rs:121-172 | one cell extends the scanned prefix by one, or returns the first problem |
| Day06b.NewState | rust/src/day06b.rs:108-192 | `State::new` succeeds exactly when the layout reads, with the same error message otherwise; the new state holds the layout's cells and guard and only the start cell visited |
| Day06b.Solve | rust/src/day06b.rs:279-317 | the solver fails exactly as the layout does; otherwise its answer is the number of cells ahead of the guard's patrol where an obstacle traps it |
| Day07a.ParseLine | rust/src/day07a.rs:64-84 | a line without exactly one `:` is an error; a parsed answer fits in a u64 |
| Day07a.ParseRenderLine | rust/src/day07a.rs:64-84 | an answer and values below 2^64, written as `answer: v1 v2 ...`, parse back to the same line |
| Day07a.ParseDecimals | rust/src/day07a.rs:68-79 | the space-separated decimal renderings of u64 values parse back to the values |
| Day07a.EarlyExitExact | rust/src/day07a.rs:97-111 | with every value at least 1, stopping as soon as the running result exceeds the answer accepts exactly the operator choices that evaluate to the answer |
| Day07a.PrefixMonotone | rust/src/day07a.rs:106-108 | with values of at least 1 the running result never decreases, which justifies the early exit |
| Day07a.ZeroDefeatsEarlyExit | rust/src/day07a.rs:106-108 | with a 0 among the values the early exit can reject a choice that evaluates to the answer: `0: 5 1 0` with + then * |
| Day07a.Decode | rust/src/day07a.rs:133-143 | bit i of the counter selects operator i: 0 is Add and 1 is Multiply |
| Day07a.EncodeDecode | rust/src/day07a.rs:128-143 | every operator choice of length n is the decoding of one counter value below 2^n, so counting up to 2^n tries every choice |
| Day07a.Operators.Next | rust/src/day07a.rs:128-130 | `next` increments the counter |
| Day07a.Operators.Get | rust/src/day07a.rs:136-142 | indexing yields operator i of the counter's decoding |
| Day07a.IsSolution | rust/src/day07a.rs:97-111 | `is_solution` holds exactly when the left-to-right evaluation with the early exit reaches the answer |
| Day07a.IsSolvable | rust/src/day07a.rs:86-126 | `is_solvable` succeeds exactly for 1 to 32 values (fewer fails in `Operators::new`, more overflows the `2u32.pow` bound) and then says whether some operator choice is accepted; no values gives `line is empty, no values`, and more than 65 give `too many values, line len = ` and the count in decimal |
| Day07a.ParseLines | rust/src/day07a.rs:164-167 | every trimmed line parses, one line per input line, or the whole parse fails |
| Day07a.SumSolvable | rust/src/day07a.rs:169-174 | the sum succeeds exactly when every line is checkable and is then the sum of the answers of the solvable lines |
| Day07a.Solve | rust/src/day07a.rs:146-175 | the solver succeeds exactly when every line parses and is checkable, and returns the total calibration |
| Day07b.ValueBound | rust/src/day07b.rs:118-142 | the operator vector, read as a base-3 number, is below 3^n |
| Day07b.ValueInjective | rust/src/day07b.rs:118-142 | two operator vectors of one length with the same base-3 value are equal |
| Day07b.ValueZero | rust/src/day07b.rs:125-127 | the base-3 value is 0 exactly for the all-Add vector that `Operators::new` builds |
| Day07b.CarryStep | rust/src/day07b.rs:131-141 | one digit step of the carry loop adds 3^i, or wraps to Add and carries |
| Day07b.Operators.constructor | rust/src/day07b.rs:119-128 | a new counter has n operators, all Add |
| Day07b.Operators.Next | rust/src/day07b.rs:130-142 | `next` adds one to the base-3 counter, wrapping to all-Add after the last vector |
| Day07b.IterateIsMod | rust/src/day07b.rs:130-142 | after k calls of `next` the counter's value is k modulo 3^n, so the loop visits every vector once |
| Day07b.FullCycle | rust/src/day07b.rs:87-92 | after 3^n calls the counter is back to all-Add |
| Day07b.CatIsDecimalConcatenation | rust/src/day07b.rs:104-108 | concatenation is the decimal concatenation of the two values when it fits in a u64, and a parse error otherwise |
| Day07b.RunFromSound | rust/src/day07b.rs:96-115 | when `is_solution` succeeds, the full left-to-right evaluation equals the answer |
| Day07b.RunFromComplete | rust/src/day07b.rs:96-115 | with values of at least 1 and an answer below 2^64, a choice that evaluates to the answer is accepted |
| Day07b.CatAtLeast | rust/src/day07b.rs:104-108 | concatenating never yields less than the left value, so the early exit stays sound |
| Day07b.IsSolution | rust/src/day07b.rs:96-115 | the loop returns exactly the checked evaluation of the current operator vector |
| Day07b.VectorValue | rust/src/day07b.rs:118-142 | the c-th operator vector of the counter's order has base-3 value c |
| Day07b.SearchFromFirst | rust/src/day07b.rs:85-94 | the search from vector c, when all earlier vectors were rejected, is false exactly when every vector is rejected, and otherwise is the outcome (accept or error) of the first vector in counter order that is not rejected |
| Day07b.OutcomeFirst | rust/src/day07b.rs:85-94 | for 1 to 21 values, a line's outcome is false exactly when every vector is rejected, and otherwise the outcome of the first vector, in counter order, that is not rejected |
| Day07b.OutcomeSolvable | rust/src/day07b.rs:85-94 | a finished search means 1 to 21 values, and its answer is true exactly when some vector evaluates to the line's answer |
| Day07b.OutcomeOk | rust/src/day07b.rs:85-94 | with 1 to 21 values and no vector whose concatenation overflows, the search finishes |
| Day07b.IsSolvable | rust/src/day07b.rs:85-94 | the result is the line's outcome: the empty-line and `3u32.pow` errors outside 1 to 21 values, and otherwise the first accepted or overflowing vector in counter order, so success means some vector is accepted |
| Day07b.CountThrough | rust/src/day07b.rs:87-93 | the counting loop over 3^n vectors returns the search's outcome from the all-Add vector |
| Day07b.AnswersCalibration | rust/src/day07b.rs:177-182 | summing the answers of the lines flagged solvable gives the total calibration |
| Day07b.TotalOk | rust/src/day07b.rs:177-182 | the `collect` of the line outcomes succeeds exactly when every line's search finishes, and is then the calibration; otherwise it is the error of the first line whose search fails |
| Day07b.SumSolvable | rust/src/day07b.rs:177-182 | the loop returns the collected total: it succeeds exactly when every line's search finishes (in particular when every line has 1 to 21 values and no overflowing vector), the sum is then the calibration, and otherwise the error is the first failing line's |
| Day07b.CheckableExtend | rust/src/day07b.rs:177-180 | the lines seen so far stay checkable when the next line has 1 to 21 values |
| Day07b.Solve | rust/src/day07b.rs:154-183 | the answer exists exactly when the lines parse and every line's search finishes; it is then the total calibration with three operators, a parse error or the first failing line's error otherwise, and lines of 1 to 21 values without an overflowing vector always give an answer |
| Day08b.TowersListPositions | rust/src/day08b.rs:121-132 | after k cells the tower map has a key for exactly the frequencies seen, each listing that frequency's positions in scan order |
| Day08b.NoPositions | rust/src/day08b.rs:121-132 | a frequency not seen before cell k has no position before k |
| Day08b.ReadGrid | rust/src/day08b.rs:94-139 | the map reads exactly when the non-blank trimmed rows share one width, and the towers it holds are in bounds and distinct |
| Day08b.NewGrid | rust/src/day08b.rs:94-139 | `Grid::new` returns the grid that the reading function describes |
| Day08b.ScanRows | rust/src/day08b.rs:121-132 | the nested scan builds the tower map of the whole map |
| Day08b.ScanRow | rust/src/day08b.rs:123-131 | one row extends the tower map by that row's cells |
| Day08b.NewGridValid | rust/src/day08b.rs:121-132 | a point is listed under a frequency exactly when it lies on the map and holds that character, which is not `.` |
| Day08b.Convex | rust/src/day08b.rs:194-201 | if two multiples along a line are on the map then every multiple between them is too, so each walk covers one contiguous run |
| Day08b.AddPair | rust/src/day08b.rs:189-201 | one pair adds exactly the in-bounds cells a + m*(b - a) for every integer m, including both towers |
| Day08b.SegmentIsLine | rust/src/day08b.rs:192-201 | the cells strictly between the first off-map multiples on both sides are all the in-bounds cells of the line |
| Day08b.PairsBeforeStep | rust/src/day08b.rs:145-153 | the pair enumeration covers each later tower of the same frequency once |
| Day08b.AddKind | rust/src/day08b.rs:146-152 | all pairs of one frequency add the union of their line cells |
| Day08b.AddPartners | rust/src/day08b.rs:147-151 | the tower at index i adds the lines through every later tower of its frequency |
| Day08b.AntinodesOfStep | rust/src/day08b.rs:145 | visiting one more frequency adds exactly its pairs' line cells, whatever order the map gives |
| Day08b.CollectAntinodes | rust/src/day08b.rs:187-202 | the result set is every cell on the line of some pair of towers of one frequency |
| Day08b.Solve | rust/src/day08b.rs:162-204 | the solver fails exactly when the rows differ in width, and otherwise counts the distinct antinode cells |
| Day09a.OffsetMonotone | rust/src/day09a.rs:84-97 | positions laid out later in the map never come before earlier ones |
| Day09a.Files | rust/src/day09a.rs:77-97 | there is one file per odd-numbered entry of the map |
| Day09a.ParseFiles | rust/src/day09a.rs:71-97 | parsing succeeds exactly on an odd-length run of digits (a digit-free character fails `parse`, an even length indexes past the end, an empty map indexes slot 0) and yields the files at their offsets and the total length |
| Day09a.OwnerOfLayout | rust/src/day09a.rs:99-104 | the files of a parsed map do not overlap: a block is owned by exactly the file whose span covers it |
| Day09a.DiskLayout | rust/src/day09a.rs:99-104 | the block vector has one slot per block of the disk |
| Day09a.LayBlocks | rust/src/day09a.rs:99-104 | the filling loop writes each file's id over its span and leaves the rest free |
| Day09a.Compaction | rust/src/day09a.rs:106-119 | the two-pointer loop from given `from_start` and `from_end`, step for step; it never changes the disk's length |
| Day09a.Compact | rust/src/day09a.rs:106-119 | the in-place two-pointer loop leaves exactly the disk Day09a.CompactDisk computes from the one it was given |
| Day09a.CompactionPermutes | rust/src/day09a.rs:106-119 | each step of the loop only moves ids: the multiset of blocks is unchanged |
| Day09a.CompactionCompacts | rust/src/day09a.rs:106-119 | started with only occupied slots left of `from_start` and only free slots right of `from_end`, the loop leaves no free block before an occupied one |
| Day09a.CompactionMovesLeft | rust/src/day09a.rs:106-119 | an occupied slot keeps its id or is freed, and an id that lands in a slot comes from a slot to its right, no further right than `from_end` |
| Day09a.CompactedDisk | rust/src/day09a.rs:106-119 | the compacted disk has the same length and the same blocks, is compacted, and blocks only ever move left |
| Day09a.LeadingRun | rust/src/day09a.rs:121-123 | `take_while(is_some)` stops at the first free block |
| Day09a.CompactedChecksum | rust/src/day09a.rs:121-126 | on a compacted disk the checksum over the leading run equals the position-weighted sum over all blocks |
| Day09a.TailAddsNothing | rust/src/day09a.rs:121-126 | free blocks add nothing to the weighted sum |
| Day09a.CompactMap | rust/src/day09a.rs:71-126 | the map is accepted exactly when it is well formed with at least one block (an empty disk underflows `len() - 1`); the answer is the checksum of Day09a.CompactDisk of the laid-out blocks, a function of the map alone, and equals the position-weighted sum over the whole compacted disk |
| Day09a.Solve | rust/src/day09a.rs:53-127 | the solver on the joined lines: the same acceptance and the same checksum |
| Day09b.Gaps | rust/src/day09b.rs:93-110 | there is one gap per even-numbered entry after the first file |
| Day09b.ParseLayout | rust/src/day09b.rs:79-110 | parsing succeeds exactly on a well-formed map and yields its files and gaps at their offsets |
| Day09b.FirstFit | rust/src/day09b.rs:115-118 | `find` returns the first gap left of the file that is large enough, and none exactly when no gap fits |
| Day09b.MoveFileKeeps | rust/src/day09b.rs:113-127 | moving one file changes only that file, keeps its id and length, moves it left into the first fitting gap exactly when one exists, and only shrinks gaps |
| Day09b.CompactKeeps | rust/src/day09b.rs:113-128 | the reverse pass keeps every file's id and length, never moves a file right, and leaves files not yet visited untouched |
| Day09b.CompactFiles | rust/src/day09b.rs:113-128 | the loop over files in reverse order equals moving the files one by one from the last to the first |
| Day09b.RangeSumClosed | rust/src/day09b.rs:130-134 | the block indices of a file sum to len * (2 * start + len - 1) / 2 |
| Day09b.ChecksumSwap | rust/src/day09b.rs:130-134 | replacing one file changes the checksum by exactly that file's contribution |
| Day09b.CompactMap | rust/src/day09b.rs:79-134 | the map is accepted exactly when it is well formed, and the answer is the checksum of the compacted files |
| Day09b.Solve | rust/src/day09b.rs:61-135 | the solver on the joined lines: the same acceptance and checksum |
| Day10a.Heights | rust/src/day10a.rs:75-88 | each digit character becomes its value, at most 9 |
| Day10a.ReadMap | rust/src/day10a.rs:59-93 | the map reads exactly when there is at least one line, all lines have one width and every character is a digit; each cell then holds its digit |
| Day10a.Get | rust/src/day10a.rs:95-101 | `get` returns a height, at most 9, exactly for points on the map |
| Day10a.FindAll | rust/src/day10a.rs:103-115 | `find_all` lists the cells holding the value in row-major order |
| Day10a.FindInRow | rust/src/day10a.rs:107-112 | one row of the scan appends that row's matching cells |
| Day10a.FindAllComplete | rust/src/day10a.rs:103-115 | a point is listed exactly when it is on the map and holds the value |
| Day10a.PeaksAreSummits | rust/src/day10a.rs:129-134 | every peak counted from a point is a 9 on the map within 9 - height steps of it |
| Day10a.PeaksAreTrailEnds | rust/src/day10a.rs:117-188 | a point is among the peaks reached from a start exactly when it is a 9 at the end of a trail from that start climbing by 1 at each orthogonal step |
| Day10a.TrailTo | rust/src/day10a.rs:129-183 | every counted peak has a trail leading to it |
| Day10a.TrailEndIsPeak | rust/src/day10a.rs:129-183 | the end of every trail that reaches height 9 is counted |
| Day10a.PendingStep | rust/src/day10a.rs:137-183 | each neighbour that climbs by one is pushed, and the others add nothing |
| Day10a.PushClimbs | rust/src/day10a.rs:137-183 | pushing the climbing neighbours of the popped cell keeps the peaks still to find unchanged and adds less than the popped cell's weight, so the stack loop terminates |
| Day10a.CountPeaks | rust/src/day10a.rs:117-188 | `count_paths` returns the number of distinct 9-cells reachable by trails from the start |
| Day10a.Solve | rust/src/day10a.rs:192-218 | the solver fails exactly when the map does not read, and otherwise sums the scores of every 0 cell in row-major order |
| Day10a.SumScores | rust/src/day10a.rs:217 | the sum over the trailheads is the total of their scores |
| Day10a.HeadsInBounds | rust/src/day10a.rs:217 | every trailhead found lies on the map |
| Day10b.RatingBoundsScore | rust/src/day10b.rs:117-182 | a start's rating is at least its score, and positive exactly when some peak is reachable |
| Day10b.ViaBoundsScore | rust/src/day10b.rs:137-176 | over any suffix of the four neighbours the summed ratings bound the peaks reached through them |
| Day10b.TotalRatingBoundsScore | rust/src/day10b.rs:211 | the part-two total is at least the part-one total over the same trailheads |
| Day10b.Solve | rust/src/day10b.rs:186-212 | the solver fails exactly when the map does not read, and otherwise sums the recursive path counts of every 0 cell |
| Day11a.HalvesJoin | rust/src/day11a.rs:76-84 | splitting the decimal digits of an even-length number in half gives a left half with exactly half the digits and a right half below 10^half, which join back to the number |
| Day11a.Blink | rust/src/day11a.rs:73-87 | one stone becomes one or two stones |
| Day11a.BlinkAllAppend | rust/src/day11a.rs:72-89 | blinking a row is blinking its parts separately, in order |
| Day11a.BlinkAllLength | rust/src/day11a.rs:72-89 | one blink at least keeps and at most doubles the number of stones |
| Day11a.BlinksLength | rust/src/day11a.rs:125-128 | after n blinks there are between the original count and 2^n times as many stones |
| Day11a.Render | rust/src/day11a.rs:59-67 | rendering writes each stone in decimal |
| Day11a.ParseStonesRender | rust/src/day11a.rs:59-67 | a non-empty row of u64 stones rendered with single spaces parses back to the same row |
| Day11a.List.New | rust/src/day11a.rs:59-67 | `List::new` succeeds exactly when the line parses, holding its stones and an empty `next` |
| Day11a.List.Advance | rust/src/day11a.rs:69-94 | `advance` replaces the row by its blink and leaves the old row in `next` (the swap) |
| Day11a.Solve | rust/src/day11a.rs:102-129 | the solver succeeds exactly on a single line that parses, and returns the number of stones after 25 blinks |
| Day11b.Increment | rust/src/day11b.rs:108-113 | `increment` adds `times` to the number's count, adds the key if it was missing and leaves the other counts alone |
| Day11b.IncrementRepresents | rust/src/day11b.rs:108-113 | a count map for a multiset of stones, incremented, represents that multiset plus `times` copies of the number |
| Day11b.UnfoldAll | rust/src/day11b.rs:80-97 | listing every key as often as its count gives back the represented multiset, in whatever order the map is visited |
| Day11b.BlinkRepeat | rust/src/day11b.rs:80-97 | blinking t copies of a stone gives t copies of its blink |
| Day11b.BlinkAllPermutation | rust/src/day11b.rs:80-97 | blinking depends only on the multiset of stones, so blinking counts is sound |
| Day11b.List.New | rust/src/day11b.rs:61-75 | `List::new` succeeds exactly when the line parses, and its counts represent the parsed row |
| Day11b.List.CountAll | rust/src/day11b.rs:62-69 | the counting loop represents the multiset of the stones |
| Day11b.List.Advance | rust/src/day11b.rs:77-102 | `advance` keeps the counts representing the row of part one, blinked once |
| Day11b.List.SpreadAll | rust/src/day11b.rs:78-97 | the loop over the count map builds counts for the blinked row |
| Day11b.List.UnfoldStep | rust/src/day11b.rs:80-97 | one more key of the map adds its count's copies of the key's blink |
| Day11b.List.Spread | rust/src/day11b.rs:81-95 | one key adds `count` copies of its blink to the next counts |
| Day11b.List.Len | rust/src/day11b.rs:104-106 | `len`, the sum of the counts, is the number of stones |
| Day11b.Solve | rust/src/day11b.rs:117-144 | the solver succeeds exactly on a single line that parses, and returns the number of stones in part one's row after 75 blinks |
| Day12a.ReadMap | rust/src/day12a.rs:66-81 | the map reads exactly when there is at least one line and all lines have one width; each cell holds its line's character |
| Day12a.SidesSymmetric | rust/src/day12a.rs:111-148 | being a side neighbour is symmetric |
| Day12a.Fences | rust/src/day12a.rs:111-161 | a cell has at most 4 fences: 4 exactly when no side grows the same plant, 0 exactly when every side does |
| Day12a.FenceSumAppend | rust/src/day12a.rs:155-156 | the perimeter of a union of cell lists is the sum of their perimeters |
| Day12a.RegionIsOnePlant | rust/src/day12a.rs:149-157 | every cell of a region grows the plant of its first cell |
| Day12a.RegionsUnique | rust/src/day12a.rs:102-164 | two regions that share a cell have the same cells, so a region is determined by any of its cells |
| Day12a.Possible | rust/src/day12a.rs:111-148 | there are always four neighbour slots, one per side |
| Day12a.Visit | rust/src/day12a.rs:102-164 | `visit` marks exactly the unmarked cells of the start's region, returns their number as the area and their total fence count (sides off the map or towards another plant) as the perimeter, and terminates because each call marks a new cell |
| Day12a.Neighbours | rust/src/day12a.rs:111-148 | the four `if` expressions give the in-bounds side neighbours and count one fence per side off the map |
| Day12a.OffMapSides | rust/src/day12a.rs:111-148 | the off-map fence count is one per side whose guard fails |
| Day12a.VisitSide | rust/src/day12a.rs:149-161 | one neighbour: a same-plant unmarked cell adds its whole region, a marked one adds nothing, and a different plant adds one fence |
| Day12a.AllSidesSeen | rust/src/day12a.rs:111-161 | after the four sides every fence of the cell has been counted |
| Day12a.Price | rust/src/day12a.rs:83-100 | `solve` finds regions that partition the map, each a maximal same-plant connected region, and returns the sum of area times perimeter over them |
| Day12a.ScanRow | rust/src/day12a.rs:91-97 | one row of the scan keeps the regions found so far consistent with the marks and the running price |
| Day12a.ScanCell | rust/src/day12a.rs:92-96 | an unmarked cell starts a new region and adds its price; a marked cell adds nothing |
| Day12a.AddRegion | rust/src/day12a.rs:92-95 | the region visited from the first unmarked cell joins the list, and the price grows by its area times perimeter |
| Day12a.NewRegion | rust/src/day12a.rs:92-95 | what `visit` collects from an unmarked cell is a full region |
| Day12a.DisjointAfter | rust/src/day12a.rs:92-95 | the new region shares no cell with the earlier ones |
| Day12a.ScannedAll | rust/src/day12a.rs:90-99 | after the last cell the regions cover every cell of the map exactly once |
| Day12a.Solve | rust/src/day12a.rs:168-194 | the solver fails exactly when the map does not read, and otherwise returns the price of a partition of the map into its regions |
| Day12b.SideFence | rust/src/day12b.rs:142-219 | the fence unit recorded for side k of a cell lies on that side and belongs to that cell |
| Day12b.FencedBeforeCount | rust/src/day12b.rs:220-237 | the fence units a cell records towards other plants match part one's fence count side by side |
| Day12b.CellFencesCount | rust/src/day12b.rs:142-237 | a cell records exactly as many fence units as part one counts fences for it |
| Day12b.RegionFencesAppend | rust/src/day12b.rs:220-237 | the fence units of a union of cell lists are the union of their fence units |
| Day12b.RegionFencesCount | rust/src/day12b.rs:129-241 | a region records exactly its part-one perimeter in distinct fence units |
| Day12b.Starts | rust/src/day12b.rs:104-120 | the fence units that start a side are among the fence units |
| Day12b.SidesAtMostPerimeter | rust/src/day12b.rs:104-120 | a region has no more sides than units of fence |
| Day12b.Push | rust/src/day12b.rs:230-235 | the nested `entry(..).or_insert(..).push(..)` adds exactly one fence unit to the side map's contents |
| Day12b.RunStartsStep | rust/src/day12b.rs:110-117 | in a sorted list, each element more than 1 above its predecessor starts a new run, and the others do not |
| Day12b.CountRuns | rust/src/day12b.rs:106-118 | the loop over a sorted list counts its maximal runs of consecutive values |
| Day12b.LineStarts | rust/src/day12b.rs:105-118 | the runs of one sorted fence line are exactly the side starts on that line |
| Day12b.SortedElems | rust/src/day12b.rs:106 | sorting a fence list keeps its values |
| Day12b.DirectionAdd | rust/src/day12b.rs:104-120 | the side starts of another direction add to the count, in whatever order the map yields the directions |
| Day12b.AllDirections | rust/src/day12b.rs:104-120 | the directions of the side map cover all side starts |
| Day12b.CountSides | rust/src/day12b.rs:103-120 | the double loop over the side map counts exactly the starts of straight sides among the recorded fence units |
| Day12b.CountDirection | rust/src/day12b.rs:105-119 | the loop over one direction's lines counts that direction's side starts |
| Day12b.Candidate | rust/src/day12b.rs:142-219 | side k has no neighbour exactly when it leaves the map; otherwise it names the neighbour and the fence unit between them |
| Day12b.Candidates | rust/src/day12b.rs:142-219 | the four neighbour slots, one per side |
| Day12b.Visit | rust/src/day12b.rs:129-241 | `visit` marks exactly the unmarked cells of the region, returns their number and adds exactly the region's fence units to the side map |
| Day12b.OffMapSides | rust/src/day12b.rs:142-219 | the four `if` expressions give the in-bounds neighbours and record a fence unit for each side off the map |
| Day12b.CheckSide | rust/src/day12b.rs:142-219 | one side's `if`: the neighbour when in bounds, otherwise the recorded off-map fence unit |
| Day12b.VisitSide | rust/src/day12b.rs:220-237 | one neighbour: a same-plant unmarked cell adds its region and fences, a different plant records one fence unit |
| Day12b.GatherEnd | rust/src/day12b.rs:220-240 | after the four sides the region's area and all its fence units have been gathered |
| Day12b.DiscountAtMostPrice | rust/src/day12b.rs:91-127 | the bulk-discount price never exceeds part one's price on the same regions |
| Day12b.Price | rust/src/day12b.rs:91-127 | `solve` finds regions that partition the map, each a maximal same-plant connected region, and returns the sum of area times number of sides |
| Day12b.ScanRow | rust/src/day12b.rs:99-124 | one row of the scan keeps the regions and the running price consistent |
| Day12b.ScanCell | rust/src/day12b.rs:100-123 | an unmarked cell starts a new region and adds its area times sides |
| Day12b.CountedSides | rust/src/day12b.rs:101-120 | counting the side map of a fresh region gives that region's number of sides |
| Day12b.AddPricedRegion | rust/src/day12b.rs:100-121 | a new region joins the list, and the price grows by its area times sides |
| Day12b.Solve | rust/src/day12b.rs:245-271 | the solver fails exactly when the map does not read, and otherwise returns the discounted price of a partition into regions, never more than part one's price |
| Day13a.Quotient | rust/src/day13a.rs:151-166 | the exact quotient when the divisor divides the numerator, and no integer quotient otherwise |
| Day13a.PressesForAccepts | rust/src/day13a.rs:150-180 | for one count of A presses, the search finds a B count exactly when that pair reaches the prize within the press limits |
| Day13a.QuotientUnique | rust/src/day13a.rs:151-166 | an exact quotient is the one the division finds |
| Day13a.FewestIsMinimum | rust/src/day13a.rs:149-181 | the search's minimum is attained by an accepted pair, no accepted pair is cheaper, and it is `None` exactly when no pair is accepted |
| Day13a.MinTokens | rust/src/day13a.rs:149-181 | the loop over A presses 0..=100 keeps the fewest tokens over all accepted pairs, and finds none exactly when no pair is accepted |
| Day13a.TwoNumbers | rust/src/day13a.rs:78-98 | a matched line is the prefix, a non-empty digit string, the middle and another non-empty digit string |
| Day13a.TwoNumbersComplete | rust/src/day13a.rs:78-98 | every line of the regex's shape matches, with its own digit strings |
| Day13a.Capture | rust/src/day13a.rs:87-98 | a line that does not match fails with `expected <button A/button B/prize> string: ` and the line; a match yields the line's two digit strings |
| Day13a.ParsePair | rust/src/day13a.rs:87-105 | one line's two numbers are its two captures parsed as `i64` |
| Day13a.ParseMachine | rust/src/day13a.rs:87-105 | the three lines of a machine parse to non-negative moves and prize coordinates; all three lines are matched before any number is parsed, so a prize line that does not match is the error even when a button's number is out of range |
| Day13a.DigitsAreNonNegative | rust/src/day13a.rs:100-105 | a captured digit string never parses to a negative number |
| Day13a.MachineOf | rust/src/day13a.rs:87-105 | three lines whose captures parse to a machine's numbers give that machine |
| Day13a.PairOf | rust/src/day13a.rs:87-105 | a line of the regex's shape with parseable captures gives those two numbers |
| Day13a.CostBounds | rust/src/day13a.rs:107-147 | with the `if B < 0, continue` step that the comment at day13a.rs:139-145 describes, a machine costs between 0 and 400 tokens; as written only the upper bound holds |
| Day13a.AgreeWithoutNegative | rust/src/day13a.rs:139-145 | when no accepted pair needs negative B presses, the loop as written and the corrected loop agree |
| Day13a.FewestBelow | rust/src/day13a.rs:169-176 | any accepted pair bounds the minimum from above |
| Day13a.FewestAttained | rust/src/day13a.rs:169-176 | a found minimum is the cost of some accepted pair |
| Day13a.NegativeCost | rust/src/day13a.rs:150-180 | a machine with A moving (10,10), B moving (1,1) and the prize at (5,5) costs -695 as written (A=100, B=-995) and 5 corrected |
| Day13a.NegativeFewestAsWritten | rust/src/day13a.rs:150-180 | the search as written returns -695 for that machine |
| Day13a.NegativeFewestCorrected | rust/src/day13a.rs:139-145 | the corrected search returns 5 for that machine |
| Day13a.NegativeTotal | rust/src/day13a.rs:55-188 | the three-line input of that machine totals -695 as written and 5 corrected |
| Day13a.NegativeSampleKept | rust/src/day13a.rs:72-76 | that input has no blank lines to drop |
| Day13a.TotalOfOne | rust/src/day13a.rs:82-185 | a single parsed machine totals to its cost |
| Day13a.Solve | rust/src/day13a.rs:55-188 | `do_it` drops blank lines and sums the machines' costs three lines at a time, failing on a cut-short group, an unmatched line or a zero B move |
| Day14a.RustRem | rust/src/day14a.rs:93-94 | Rust's `%` keeps the sign of the dividend and stays strictly inside the modulus |
| Day14a.WrapIsRemainder | rust/src/day14a.rs:93-100 | the `%` followed by adding the modulus to a negative result is the non-negative remainder |
| Day14a.Move | rust/src/day14a.rs:91-101 | one step leaves a robot on the grid with its velocity unchanged |
| Day14a.Tick | rust/src/day14a.rs:90-102 | `advance` moves every robot one step and keeps their order |
| Day14a.TicksClosedForm | rust/src/day14a.rs:172-174 | after n steps each robot stands at its start plus n times its velocity, wrapped onto the grid |
| Day14a.DriftStep | rust/src/day14a.rs:91-101 | one more step of the closed form is one more move |
| Day14a.TicksPeriodic | rust/src/day14a.rs:90-102 | robots on the grid return to their places after width times height steps |
| Day14a.DriftPeriod | rust/src/day14a.rs:91-101 | a single robot on the grid returns to its place after width times height steps |
| Day14a.Quadrant | rust/src/day14a.rs:105-120 | a robot falls in one of four quadrants or on a middle line |
| Day14a.Tally | rust/src/day14a.rs:107-121 | a quadrant holds at most all the robots |
| Day14a.TallyShares | rust/src/day14a.rs:107-121 | the four quadrants and the middle lines together count every robot once |
| Day14a.SafetyFactorZero | rust/src/day14a.rs:122 | the safety factor is zero exactly when some quadrant is empty |
| Day14a.Captures | rust/src/day14a.rs:144-153 | a matched line yields four optionally signed integers |
| Day14a.CapturesShape | rust/src/day14a.rs:144 | the regex matches exactly the lines `p=<x>,<y> v=<dx>,<dy>` of four integers, with those captures |
| Day14a.CapturedLine | rust/src/day14a.rs:144 | a matched line is rebuilt from its captures |
| Day14a.LineCaptured | rust/src/day14a.rs:144 | every line built from four integers matches with those captures |
| Day14a.IntegerHasNoSeparator | rust/src/day14a.rs:144 | a captured integer holds neither a space nor a comma, so the captures are unambiguous |
| Day14a.ParseRobot | rust/src/day14a.rs:156-168 | a robot parses exactly when its four captures fit `i64`, and holds their values |
| Day14a.CaptureLine | rust/src/day14a.rs:150-153 | a line is captured exactly when it matches, and fails with the match error otherwise |
| Day14a.ReadRobotsEach | rust/src/day14a.rs:145-170 | reading succeeds exactly when every line matches and every robot parses, one robot per line in order |
| Day14a.State.constructor | rust/src/day14a.rs:145-170 | the state holds the grid size and the robots it is given |
| Day14a.State.Advance | rust/src/day14a.rs:90-102 | `advance` replaces the robots by their one-step moves and keeps the grid size |
| Day14a.State.Count | rust/src/day14a.rs:104-123 | `count` returns the product of the four quadrant counts |
| Day14a.Simulate | rust/src/day14a.rs:172-176 | a hundred steps followed by the count give the safety factor after 100 steps |
| Day14a.Solve | rust/src/day14a.rs:127-177 | the solver fails exactly when the robots do not read, and otherwise returns the safety factor after 100 steps |
| Day14b.LinkedSelf | rust/src/day14b.rs:118-119 | an occupied cell belongs to its own cluster |
| Day14b.LinkedPrepend | rust/src/day14b.rs:121-180 | an occupied neighbour, sideways or diagonal, of a cell linked to another is linked to it too |
| Day14b.LinkedSymmetric | rust/src/day14b.rs:121-180 | being in the same cluster is symmetric |
| Day14b.LinkedTransitive | rust/src/day14b.rs:121-180 | being in the same cluster is transitive |
| Day14b.SameCluster | rust/src/day14b.rs:186-195 | two cells of one cluster have the same cluster |
| Day14b.LinkStaysInside | rust/src/day14b.rs:118-184 | a path of occupied neighbours never leaves a set closed under the neighbour relation |
| Day14b.ClosedHoldsLinked | rust/src/day14b.rs:118-184 | a closed set holds every cell linked to one of its cells |
| Day14b.FillAddsCluster | rust/src/day14b.rs:118-184 | a fill from an unmarked occupied cell marks exactly its cluster and leaves the marks closed |
| Day14b.OffsetsCover | rust/src/day14b.rs:121-180 | the eight neighbour offsets reach every cell that touches a given one |
| Day14b.CreateGrid | rust/src/day14b.rs:213-221 | the grid is true exactly at the robots' positions |
| Day14b.GatherStart | rust/src/day14b.rs:118-120 | marking an unmarked occupied cell adds one mark and starts its fill |
| Day14b.GatherStep | rust/src/day14b.rs:121-180 | a neighbour's fill adds to the fill in progress |
| Day14b.GatherSkip | rust/src/day14b.rs:121-180 | a neighbour off the grid adds nothing |
| Day14b.GatherDone | rust/src/day14b.rs:181 | after the eight neighbours the fill from the cell is complete |
| Day14b.Visit | rust/src/day14b.rs:111-185 | `visit` marks the whole cluster of an unmarked occupied cell, nothing otherwise, and returns the number of new marks |
| Day14b.CoveredByOne | rust/src/day14b.rs:186-195 | every marked cell lies in the cluster of some robot |
| Day14b.LargestBounds | rust/src/day14b.rs:186-195 | every robot's cluster is at most the largest |
| Day14b.LargestAttained | rust/src/day14b.rs:186-195 | the largest size is some robot's cluster |
| Day14b.LargestIsLargestCluster | rust/src/day14b.rs:106-197 | the measured size is the size of the largest cluster of occupied cells |
| Day14b.CountStep | rust/src/day14b.rs:187-195 | each robot's fill keeps the running maximum equal to the largest cluster seen |
| Day14b.CountMarked | rust/src/day14b.rs:187-195 | a robot in an already marked cluster returns 0 and its cluster is not larger than the maximum |
| Day14b.CountMaxContiguous | rust/src/day14b.rs:106-197 | `count_max_contiguous` returns the size of the largest cluster of occupied cells |
| Day14b.KeepEarliest | rust/src/day14b.rs:283-299 | only a strictly larger cluster replaces the kept solution, so the earliest second with the largest cluster is kept |
| Day14b.MeasuredEarliest | rust/src/day14b.rs:279-307 | the kept second is the earliest one with the largest cluster among the measured seconds |
| Day14b.SearchStep | rust/src/day14b.rs:279-304 | one pass of the loop measures one more second and keeps the earliest largest |
| Day14b.StillAway | rust/src/day14b.rs:301-303 | the robots come back within width times height seconds |
| Day14b.MeasuredStep | rust/src/day14b.rs:280-282 | the measured sizes grow by the size after one more second |
| Day14b.AwayStep | rust/src/day14b.rs:301-303 | when the state differs from the original the loop goes on |
| Day14b.Search | rust/src/day14b.rs:270-307 | the loop stops at the first return of the robots to their start and reports the earliest second with the largest cluster up to it |
| Day14b.Solve | rust/src/day14b.rs:225-311 | the solver fails exactly when the robots do not read or start off the grid, and otherwise returns the earliest second with the largest cluster before the robots first return |
| Day15a.CellAt | rust/src/day15a.rs:171-177 | `get` reads the cell at an in-bounds position and treats every position off the map as a wall |
| Day15a.RayNext | rust/src/day15a.rs:189-192 | stepping along a direction advances the ray by one |
| Day15a.RayInjective | rust/src/day15a.rs:189-199 | the positions along a ray are all different |
| Day15a.BoxRunShape | rust/src/day15a.rs:189-192 | the scan ahead of the robot passes only boxes and stops at the first non-box |
| Day15a.Push | rust/src/day15a.rs:188-209 | a move keeps the map's size; the robot steps forward exactly when the cell after the boxes ahead is empty, and otherwise nothing changes |
| Day15a.PushSound | rust/src/day15a.rs:188-209 | after a move the robot still stands on an empty in-bounds cell |
| Day15a.IndexInjectiveNot | rust/src/day15a.rs:172-173 | different in-bounds positions have different indices in the flat cell vector |
| Day15a.PushKeepsBoxesAndWalls | rust/src/day15a.rs:188-209 | a move keeps the number of boxes and leaves every wall where it is |
| Day15a.CellAtPut | rust/src/day15a.rs:179-186 | `set` changes the cell it names and no other |
| Day15a.PushShiftsRun | rust/src/day15a.rs:195-201 | a successful move steps the robot, leaves the run of boxes just ahead of it, and changes nothing but the robot's new cell and the stop cell |
| Day15a.SwapKeepsWalls | rust/src/day15a.rs:195-199 | moving a box into an empty cell changes no wall |
| Day15a.SwapKeepsMultiset | rust/src/day15a.rs:195-199 | moving a box into an empty cell keeps the cell counts |
| Day15a.GpsOverBoxes | rust/src/day15a.rs:211-223 | the flat sum over the cell vector is the sum of 100 times y plus x over the boxes' positions |
| Day15a.CoordinateAt | rust/src/day15a.rs:214-219 | the running index of the nested loop names the cell at (x, y) |
| Day15a.SumAppend | rust/src/day15a.rs:217 | one more box adds its GPS coordinate |
| Day15a.State.constructor | rust/src/day15a.rs:159-165 | the state holds the warehouse it is given |
| Day15a.State.Set | rust/src/day15a.rs:179-186 | `set` succeeds exactly in bounds, writes that one cell, and changes nothing on failure |
| Day15a.State.Advance | rust/src/day15a.rs:188-209 | `advance` turns the state into the move's result |
| Day15a.State.ShiftBoxes | rust/src/day15a.rs:196-199 | the backward copy loop shifts the run of boxes one cell and vacates the cell ahead of the robot |
| Day15a.State.CountBoxGps | rust/src/day15a.rs:211-223 | `count_box_gps` returns the sum of the boxes' GPS coordinates |
| Day15a.ShiftStep | rust/src/day15a.rs:196-199 | one pass of the copy loop moves the next cell along |
| Day15a.ShiftGeometry | rust/src/day15a.rs:189-199 | every cell the copy loop touches lies on the map, between the robot and the stop cell |
| Day15a.ShiftDone | rust/src/day15a.rs:196-200 | the copy loop ends with the cells of the move's result |
| Day15a.PushCells | rust/src/day15a.rs:195-201 | a move shifts a run of boxes by moving its first box to the stop cell |
| Day15a.LastRobot | rust/src/day15a.rs:147-152 | the robot position kept is that of the last `@`, and none exists when the map has no `@` |
| Day15a.ReadMap | rust/src/day15a.rs:130-169 | a map reads only when its lines have one width, and then gives a warehouse of that size with the robot on an empty cell |
| Day15a.ReadMapCells | rust/src/day15a.rs:139-158 | every cell of a map that reads is the cell its character names, and the robot stands on an `@` |
| Day15a.ScanStep | rust/src/day15a.rs:141-156 | one character adds its cell and, for `@`, moves the robot position |
| Day15a.ScanRow | rust/src/day15a.rs:139-157 | one row of the scan adds its cells, or fails on a character the map does not know |
| Day15a.NewState | rust/src/day15a.rs:130-169 | `State::new` succeeds exactly when the map reads, with the warehouse it reads to |
| Day15a.ScanComplete | rust/src/day15a.rs:159-168 | after the whole scan, a missing robot is an error and otherwise the warehouse is built |
| Day15a.Sections | rust/src/day15a.rs:244-262 | the map section is at most all the kept lines |
| Day15a.MapNotMove | rust/src/day15a.rs:244-245 | no line is both a map line and a move line |
| Day15a.MoveNotMap | rust/src/day15a.rs:244-245 | no line is both a move line and a map line |
| Day15a.SectionsParts | rust/src/day15a.rs:248-262 | the map section is the leading map lines and the moves are the rest, joined |
| Day15a.SectionsOk | rust/src/day15a.rs:248-262 | the input splits exactly when every line is a map or move line and no map line follows a move line |
| Day15a.FlattenMoves | rust/src/day15a.rs:266 | the joined move lines hold only move characters |
| Day15a.FlattenEmpty | rust/src/day15a.rs:266 | the joined moves are empty exactly when there are no move lines |
| Day15a.SectionsErrSticks | rust/src/day15a.rs:253-260 | the first bad line decides the error |
| Day15a.SplitSections | rust/src/day15a.rs:246-262 | the loop over the lines splits them into map and moves, with the errors of the first bad line |
| Day15a.AllMovesPrefix | rust/src/day15a.rs:266-275 | a prefix of valid moves is valid |
| Day15a.Replay | rust/src/day15a.rs:266-275 | replaying the moves keeps the map's size, the robot on an empty cell, and the number of boxes |
| Day15a.Run | rust/src/day15a.rs:266-275 | the instruction loop replays every move in order |
| Day15a.Solve | rust/src/day15a.rs:227-278 | the solver fails exactly when the input does not read, and otherwise returns the boxes' GPS sum after all the moves |
| Day15b.Get | rust/src/day15b.rs:172-178 | `get` reads an in-bounds cell and treats every position off the map as a wall |
| Day15b.GetPut | rust/src/day15b.rs:180-191 | writing a cell changes that cell and no other |
| Day15b.PutMultiset | rust/src/day15b.rs:180-191 | writing a cell trades the old content for the new one in the cell counts |
| Day15b.SetCell | rust/src/day15b.rs:180-191 | `set` succeeds exactly on an in-bounds cell that is not a wall, and then writes that one cell |
| Day15b.MoveBox | rust/src/day15b.rs:250-255 | the four writes of a box move keep the grid's size |
| Day15b.PushBox | rust/src/day15b.rs:201-256 | `push_box_at` answers true with nothing changed at an empty cell and false with nothing changed at a wall |
| Day15b.PushFalseUnchanged | rust/src/day15b.rs:225-247 | a push that answers false leaves the grid as it was, thanks to the backup taken for vertical pushes |
| Day15b.AheadCompose | rust/src/day15b.rs:221-249 | the changes of a nested push further along, then of this push, all lie ahead of this push |
| Day15b.MoveBoxFinds | rust/src/day15b.rs:250-255 | when a box can move, the four writes all land on in-bounds non-wall cells |
| Day15b.MoveBoxWrites | rust/src/day15b.rs:250-255 | a box that can move is moved by the four writes without error |
| Day15b.TradeBack | rust/src/day15b.rs:251-254 | emptying a box's two halves and writing them one cell further keeps the cell counts |
| Day15b.WrittenMultiset | rust/src/day15b.rs:251-254 | moving a box keeps the cell counts |
| Day15b.WrittenCells | rust/src/day15b.rs:251-254 | after the move, the box's halves are one step further, its old cells not covered again are empty, and every other cell is unchanged |
| Day15b.MovedPaired | rust/src/day15b.rs:251-254 | moving a box keeps every left half followed by a right half |
| Day15b.MovedAhead | rust/src/day15b.rs:251-254 | moving a box changes no wall, changes only cells ahead of the push, and vacates the pushed cell |
| Day15b.MoveBoxSound | rust/src/day15b.rs:250-255 | a box whose targets are free moves without error, with the guarantees of a push |
| Day15b.PushBoxSound | rust/src/day15b.rs:201-256 | on a grid of paired halves a push never fails, keeps the halves paired, the walls and the cell counts, changes only cells ahead, vacates the pushed cell when it answers true and changes nothing when it answers false |
| Day15b.PushSideways | rust/src/day15b.rs:225-236 | a sideways push recurses on the cell beyond the box and keeps the push guarantees |
| Day15b.PushUpDown | rust/src/day15b.rs:238-248 | a vertical push recurses on the cells beyond both halves and keeps the push guarantees |
| Day15b.VerticalResult | rust/src/day15b.rs:238-255 | a vertical push restores the backup when either half is blocked, and otherwise moves the box on the grid the two nested pushes left |
| Day15b.BothMoved | rust/src/day15b.rs:238-255 | when both nested vertical pushes succeed the box moves, with the push guarantees for the whole |
| Day15b.WallsCompose | rust/src/day15b.rs:238-255 | walls kept by two steps are kept by both together |
| Day15b.Unchanged | rust/src/day15b.rs:207-247 | leaving the grid as it was meets the guarantees of a push that answers false |
| Day15b.Advanced | rust/src/day15b.rs:258-268 | `advance` keeps the map's size |
| Day15b.AdvanceSound | rust/src/day15b.rs:258-268 | on a sound warehouse a move never fails, keeps it sound with the walls in place and the cells rearranged, and steps the robot exactly when the cell ahead is empty or its push answers true, changing nothing otherwise |
| Day15b.Replay | rust/src/day15b.rs:325-334 | replaying moves keeps the map's size |
| Day15b.ReplaySound | rust/src/day15b.rs:325-334 | replaying valid moves on a sound warehouse never fails, and keeps it sound with the walls in place and the cells rearranged |
| Day15b.State.constructor | rust/src/day15b.rs:160-166 | the state holds the warehouse it is given |
| Day15b.State.Set | rust/src/day15b.rs:180-191 | `set` does what the pure write does: succeeds in bounds on a non-wall cell, and changes nothing on failure |
| Day15b.State.PushBoxAt | rust/src/day15b.rs:201-256 | the recursive method on the state, with its backup and restore, gives the answer and the grid of the pure push |
| Day15b.State.MoveBoxAt | rust/src/day15b.rs:250-255 | the four `set` calls give the grid of the pure box move |
| Day15b.State.Advance | rust/src/day15b.rs:258-268 | `advance` turns the state into the pure move's result, failing exactly when it fails |
| Day15b.State.CountBoxGps | rust/src/day15b.rs:270-282 | `count_box_gps` sums 100 times y plus x over the left halves of the boxes |
| Day15b.Run | rust/src/day15b.rs:325-334 | the instruction loop replays the moves in order, stopping at the first failure |
| Day15b.Halves | rust/src/day15b.rs:144-156 | each map character widens to two cells |
| Day15b.WideOf | rust/src/day15b.rs:144-156 | a character widens exactly when it is a map character, into the two halves of its narrow cell |
| Day15b.WideCellsIndex | rust/src/day15b.rs:141-159 | the wide row holds each narrow cell's two halves at 2x and 2x+1 |
| Day15b.WidenComplete | rust/src/day15b.rs:137-139 | the widened grid has twice the width and all its cells |
| Day15b.WideGet | rust/src/day15b.rs:141-159 | every wide cell is the matching half of the narrow cell beneath it |
| Day15b.WideIndex | rust/src/day15b.rs:138-157 | a wide position maps to its narrow cell and half |
| Day15b.WidenSound | rust/src/day15b.rs:131-170 | widening a sound narrow warehouse gives a sound wide one, with the robot at twice its column |
| Day15b.WidePair | rust/src/day15b.rs:145 | widening pairs every left half with a right half |
| Day15b.ReadWideMap | rust/src/day15b.rs:131-170 | the wide map reads exactly when the narrow one does, and is then sound |
| Day15b.ReadWideMapCells | rust/src/day15b.rs:141-159 | each map character becomes its two halves at columns 2x and 2x+1 |
| Day15b.WidenPair | rust/src/day15b.rs:144-157 | the two wide cells of a narrow position are its halves |
| Day15b.WideRow | rust/src/day15b.rs:142-158 | one row of the scan adds the halves of its characters, or fails on an unknown character |
| Day15b.ScanWide | rust/src/day15b.rs:141-159 | the whole scan gives the widened cells and the doubled robot position |
| Day15b.NewState | rust/src/day15b.rs:131-170 | `State::new` succeeds exactly when the wide map reads, with that warehouse |
| Day15b.WideScanComplete | rust/src/day15b.rs:160-169 | after the scan a missing robot is an error and otherwise the wide warehouse is built |
| Day15b.ReadInput | rust/src/day15b.rs:303-323 | the input reads to a sound wide warehouse and valid moves |
| Day15b.AnswerOk | rust/src/day15b.rs:323-336 | once the input reads, no instruction fails |
| Day15b.Load | rust/src/day15b.rs:303-323 | the reading half of `do_it` builds a state holding the input's warehouse |
| Day15b.Solve | rust/src/day15b.rs:286-337 | the solver returns the GPS sum of the left halves after all the moves, and fails only when the input does not read |
| Day16b.Get | rust/src/day16b.rs:225-231 | `get` treats every position off the maze as a wall |
| Day16b.ReadMazeOutcome | rust/src/day16b.rs:179-223 | the maze reads exactly when there are lines of one width, every character is legal and both `S` and `E` appear; the cells are the characters' terrain and start and goal are the last `S` and `E` in reading order |
| Day16b.NewState | rust/src/day16b.rs:179-223 | `State::new` reads the maze, with the same errors |
| Day16b.IllegalFirst | rust/src/day16b.rs:189-212 | the first illegal character in reading order decides the error message |
| Day16b.Rank | rust/src/day16b.rs:110-117 | each facing has one of four indices |
| Day16b.NodeIndexBounds | rust/src/day16b.rs:162-166 | the index of a state on the maze lies inside the record vector of width times height times 4 slots |
| Day16b.NodeIndexInjective | rust/src/day16b.rs:162-166 | different states on the maze have different indices |
| Day16b.AtPut | rust/src/day16b.rs:317-338 | writing one state's slot changes that state's entry and no other |
| Day16b.Moves | rust/src/day16b.rs:424-453 | `neighbors` yields distinct moves, each a step forward onto an empty tile at cost 1 or a quarter turn at cost 1000 |
| Day16b.MovesComplete | rust/src/day16b.rs:424-453 | every move of the reindeer is among those `neighbors` yields |
| Day16b.EdgeOpen | rust/src/day16b.rs:428-451 | a move from an open state leads to an open state |
| Day16b.TurnsCancel | rust/src/day16b.rs:128-144 | a left and a right turn cancel, four left turns come full circle, and the turns change the facing |
| Day16b.RouteExtend | rust/src/day16b.rs:307-342 | a route followed by a move is a route whose cost grows by the move's cost |
| Day16b.CostStep | rust/src/day16b.rs:312 | a route's cost is the sum of its moves' costs |
| Day16b.TurnsReach | rust/src/day16b.rs:438-451 | every facing of a reachable tile is reachable |
| Day16b.Effective | rust/src/day16b.rs:413-422 | a state's distance is 0 for the start, the recorded distance otherwise, and none when nothing is recorded |
| Day16b.Enqueue | rust/src/day16b.rs:241-273 | every open state is queued once, and only the start facing right has a record |
| Day16b.SetUpDone | rust/src/day16b.rs:241-273 | after the set-up the search invariant holds |
| Day16b.Popped | rust/src/day16b.rs:300-302 | `swap_remove` and clearing the flag keep the queue and its flags in step |
| Day16b.PickedExact | rust/src/day16b.rs:278-299 | the queued state of least distance already has its least cost |
| Day16b.Stuck | rust/src/day16b.rs:304-305 | when the state picked has no distance, some open state cannot be reached |
| Day16b.Relax | rust/src/day16b.rs:307-342 | relaxing the moves out of the state picked keeps the search invariant: recorded distances are costs of real routes, and the records of states still queued list every settled state that reaches them at their distance |
| Day16b.RelaxSkip | rust/src/day16b.rs:308-332 | a move to a settled state or at a higher cost changes nothing |
| Day16b.RelaxReplace | rust/src/day16b.rs:314-338 | a cheaper move replaces the record by the new distance and this one predecessor |
| Day16b.RelaxTie | rust/src/day16b.rs:321-329 | a move at equal cost adds this predecessor to the record |
| Day16b.RelaxDone | rust/src/day16b.rs:307-342 | after all the moves the search invariant holds again |
| Day16b.SearchDone | rust/src/day16b.rs:275-343 | an empty queue means every state is settled with its least cost and all its cheapest predecessors |
| Day16b.AllSettled | rust/src/day16b.rs:275-343 | with the queue empty every open state has been settled |
| Day16b.DoneDistances | rust/src/day16b.rs:275-343 | the records then hold every open state's least cost from the start |
| Day16b.DonePredecessors | rust/src/day16b.rs:275-343 | the records then list, for every state, exactly the states that reach it along a move at its least cost |
| Day16b.Search | rust/src/day16b.rs:241-343 | the search fails exactly when some open state cannot be reached, with the source's message, and otherwise records least costs and all cheapest predecessors |
| Day16b.GoalStateAt | rust/src/day16b.rs:346-363 | the goal states are the goal tile in its four facings |
| Day16b.GoalCosts | rust/src/day16b.rs:365-371 | one cost per facing of the goal tile |
| Day16b.Least | rust/src/day16b.rs:372-376 | the minimum is one of the costs and no larger than any |
| Day16b.TargetsExact | rust/src/day16b.rs:377-384 | the walk back starts from exactly the goal states whose cost is the minimum |
| Day16b.GoalReached | rust/src/day16b.rs:346-376 | some route from the start reaches the goal at the minimum goal cost |
| Day16b.CheapestCost | rust/src/day16b.rs:346-376 | a route to the goal is cheapest exactly when its cost is the minimum goal cost |
| Day16b.PredecessorsDescend | rust/src/day16b.rs:389-405 | every recorded predecessor has a smaller distance, so the walk back ends |
| Day16b.WalkEnds | rust/src/day16b.rs:389-405 | when the walk's queue is empty the collected tiles are the start and the tiles of the states traced back |
| Day16b.Walk | rust/src/day16b.rs:386-405 | the walk back collects the start tile and exactly the tiles of the states traced back from the goal states it starts with |
| Day16b.TracedCheapest | rust/src/day16b.rs:389-405 | every state traced back lies on some cheapest route |
| Day16b.CheapestTraced | rust/src/day16b.rs:389-405 | every state on a cheapest route is traced back |
| Day16b.TilesExact | rust/src/day16b.rs:386-406 | the collected tiles are exactly the tiles on cheapest routes |
| Day16b.TileFound | rust/src/day16b.rs:386-406 | a tile is collected exactly when it lies on a cheapest route |
| Day16b.CountTiles | rust/src/day16b.rs:233-407 | `count_all_tiles_on_shortest_path` fails exactly when some open state cannot be reached, and otherwise counts the tiles on cheapest routes from start to goal |
| Day16b.CountFrom | rust/src/day16b.rs:345-406 | after a complete search, the walk back counts the tiles on cheapest routes |
| Day16b.CheapestGoals | rust/src/day16b.rs:377-384 | the walk back starts from the goal states of least cost, in facing order |
| Day16b.Solve | rust/src/day16b.rs:457-476 | the solver passes on the maze's read error, and otherwise fails exactly when some open state cannot be reached and returns the number of tiles on cheapest routes |
| Day17a.PowTwo64 | rust/src/day17a.rs:84 | 2 to the 64 is the `u64` limit, so a shift of 64 or more overflows `2u64.pow` |
| Day17a.Fetch | rust/src/day17a.rs:180-189 | `read` returns the program byte at the instruction pointer and advances it, or halts the machine at the end of the program |
| Day17a.Combo | rust/src/day17a.rs:167-178 | a combo operand of 0 to 3 is itself, 4 to 6 name registers A, B and C, and 7 or more is an error |
| Day17a.FetchCombo | rust/src/day17a.rs:167-178 | reading a combo operand fails exactly on a present operand above 6, and otherwise reads like `read` with the operand's value |
| Day17a.Divided | rust/src/day17a.rs:137-146 | dividing by a power of two never increases the register |
| Day17a.StepErrors | rust/src/day17a.rs:75-157 | a step fails exactly on an opcode above 7, or on a combo operand of 7 or more behind adv, bst, out, bdv or cdv |
| Day17a.StepControl | rust/src/day17a.rs:79-118 | a step keeps the program, halts exactly when it reads past the end, jumps on jnz with A non-zero, and otherwise moves past the opcode and operand |
| Day17a.StepRegisters | rust/src/day17a.rs:80-151 | each opcode updates exactly its register: adv A, bxl/bst/bxc/bdv B, cdv C, and out emits its combo operand mod 8 |
| Day17a.MissingOperand | rust/src/day17a.rs:83-124 | an opcode with no operand left halts the machine, and bxc still applies |
| Day17a.HaltedStays | rust/src/day17a.rs:154-156 | a halted machine steps to itself with no output |
| Day17a.StepValid | rust/src/day17a.rs:75-157 | a step keeps the registers within `u64` and outputs only values below 8 |
| Day17a.OutputsDigits | rust/src/day17a.rs:249-252 | every output of a run is below 8 |
| Day17a.OutputsFuel | rust/src/day17a.rs:250-252 | a run that halts within a bound gives the same outputs with any larger bound |
| Day17a.Resume | rust/src/day17a.rs:250-252 | the run loop from any machine is one step followed by the run from the next machine |
| Day17a.VM.constructor | rust/src/day17a.rs:64-73 | `VM::new` starts at instruction 0, not halted, with the given registers and program |
| Day17a.VM.Read | rust/src/day17a.rs:180-189 | `read` on the VM does what the pure fetch does |
| Day17a.VM.ReadCombo | rust/src/day17a.rs:167-178 | `read_combo_data` on the VM does what the pure combo fetch does, errors included |
| Day17a.VM.Step | rust/src/day17a.rs:75-157 | `step` on the VM does what the pure step does, errors included |
| Day17a.Run | rust/src/day17a.rs:249-252 | the loop `while !vm.is_halted` collects the outputs of the run |
| Day17a.RunStep | rust/src/day17a.rs:250-252 | one pass of the loop keeps the run's outputs in step, and an error is the run's error |
| Day17a.Capture | rust/src/day17a.rs:223-238 | a line matches `^<prefix>(<chars>+)$` exactly when it is the prefix followed by at least one allowed character, and the capture is the rest |
| Day17a.ReadInput | rust/src/day17a.rs:210-248 | a read machine starts at instruction 0, not halted, with registers within `u64` and program bytes within `u8` |
| Day17a.RenderParses | rust/src/day17a.rs:253 | the comma-joined output reads back as the same numbers |
| Day17a.AnswerDigits | rust/src/day17a.rs:249-253 | the answer is digits 0 to 7 separated by commas |
| Day17a.RenderDigits | rust/src/day17a.rs:253 | the rendering of outputs below 8 alternates digits and commas, two characters per output but the last |
| Day17a.RenderCons | rust/src/day17a.rs:253 | the rendering is the first output, a comma, then the rendering of the rest |
| Day17a.Solve | rust/src/day17a.rs:193-254 | `do_it` reads the input, runs the machine until it halts and joins the outputs |
| Day17b.Stepped | rust/src/day17b.rs:76-175 | part two's `step` changes the machine and outputs as part one's does, and fails exactly when it fails |
| Day17b.StepAnswer | rust/src/day17b.rs:76-175 | `step` answers false exactly when it outputs a value the callback rejects; every instruction other than `out` answers true |
| Day17b.CollectedAll | rust/src/day17b.rs:273-288 | with a callback that always answers true, as the source's does, the run collects exactly part one's outputs |
| Day17b.Resume | rust/src/day17b.rs:277-288 | the inner loop from any machine is one step followed by the loop from the next machine, stopping when the step answers false |
| Day17b.Step | rust/src/day17b.rs:76-175 | `step` on the VM does what the pure step does, errors included |
| Day17b.RunStep | rust/src/day17b.rs:277-288 | one pass of the inner loop keeps the collected outputs in step with the run |
| Day17b.Run | rust/src/day17b.rs:276-288 | the inner loop collects the run's outputs |
| Day17b.FindSmallest | rust/src/day17b.rs:271-297 | the value found makes the program output itself, and every smaller value runs to completion with a different output |
| Day17b.FindComplete | rust/src/day17b.rs:271-297 | when every candidate runs to completion, the search fails exactly when no candidate makes the program output itself |
| Day17b.Search | rust/src/day17b.rs:268-297 | the loop over A from 0 on, each on a fresh copy of the machine, returns the first value whose outputs equal the program |
| Day17b.TrialOutputs | rust/src/day17b.rs:274-288 | a trial with A set to `a` outputs what part one's run outputs from that machine |
| Day17b.AnswerSmallest | rust/src/day17b.rs:211-298 | the answer is the smallest value of register A that makes the program output itself |
| Day17b.Solve | rust/src/day17b.rs:211-298 | `do_it` reads the machine as part one does and searches for the smallest such A |
| Day18b.ParseByte | rust/src/day18b.rs:134-141 | a byte line parses to two coordinates that fit `usize` |
| Day18b.ParseByteLine | rust/src/day18b.rs:134-141 | every line `x,y` of two numbers parses back to them |
| Day18b.FallenOk | rust/src/day18b.rs:135-143 | the bytes fall without error exactly when every line parses and lands inside the grid's cells |
| Day18b.FallenCells | rust/src/day18b.rs:135-143 | after the bytes fall a cell is corrupted exactly when it was before or some byte hits it |
| Day18b.Clear | rust/src/day18b.rs:132 | a fresh grid has no corrupted cell |
| Day18b.Corrupt | rust/src/day18b.rs:128-145 | a grid that reads has the given width and height |
| Day18b.CorruptCells | rust/src/day18b.rs:128-145 | `Grid::new` succeeds exactly when every byte lands, and a cell is corrupted exactly when some byte hits it |
| Day18b.NewGrid | rust/src/day18b.rs:128-145 | the loop of `Grid::new` builds the grid the bytes describe, with the same errors |
| Day18b.CellIndex | rust/src/day18b.rs:265-271 | `index` succeeds exactly in bounds, with an index inside the grid |
| Day18b.CellIndexInjective | rust/src/day18b.rs:265-271 | different cells have different indices |
| Day18b.AtPut | rust/src/day18b.rs:242-244 | writing one cell's slot changes that cell's entry and no other |
| Day18b.RouteExtend | rust/src/day18b.rs:213-252 | a route followed by a free neighbour is a route |
| Day18b.Effective | rust/src/day18b.rs:273-279 | a cell's distance is 0 for the start, the recorded distance otherwise, and none when nothing is recorded |
| Day18b.Keys | rust/src/day18b.rs:186-191 | the keys the queue is ordered by are the queued cells' distances |
| Day18b.Enqueue | rust/src/day18b.rs:155-177 | every free cell is queued once, and only the start has a record |
| Day18b.EnqueueCell | rust/src/day18b.rs:168-175 | a free cell joins the queue, the start also gets its record, and a corrupted cell is skipped |
| Day18b.SetUpDone | rust/src/day18b.rs:155-177 | after the set-up the search invariant holds |
| Day18b.Popped | rust/src/day18b.rs:205-208 | `swap_remove` and clearing the flag keep the queue and its flags in step |
| Day18b.PoppedSettled | rust/src/day18b.rs:205-211 | the cell taken out of the queue has a distance, and the start is never queued again |
| Day18b.Frontier | rust/src/day18b.rs:183-204 | while the goal waits on a route from the start, some queued cell has a distance |
| Day18b.GoalWaits | rust/src/day18b.rs:180 | until the goal is found, a free goal other than the start stays queued |
| Day18b.NothingReached | rust/src/day18b.rs:180-211 | when no queued cell has a distance, the goal cannot be reached |
| Day18b.RelaxSkip | rust/src/day18b.rs:219-251 | a neighbour off the grid, no longer queued or already reached changes nothing |
| Day18b.RelaxOne | rust/src/day18b.rs:227-249 | a queued neighbour without a distance gets the next distance, and the goal is noted when it is that neighbour |
| Day18b.Relax | rust/src/day18b.rs:213-252 | the four neighbours keep the search invariant: recorded distances are lengths of real routes and the goal, once noted, has one |
| Day18b.Visit | rust/src/day18b.rs:183-252 | one pass of the loop shrinks the queue and keeps the search invariant |
| Day18b.FoundGoal | rust/src/day18b.rs:255-259 | a noted goal has a recorded distance, the length of a real route from the start |
| Day18b.ShortestPath | rust/src/day18b.rs:147-263 | `shorted_path` succeeds whenever the goal is another cell reachable from the start, and then returns the length of a real route |
| Day18b.RouteSurvives | rust/src/day18b.rs:315 | a route through a grid with more corruption is a route through one with less |
| Day18b.PrefixCells | rust/src/day18b.rs:315 | a shorter prefix of the bytes reads, and corrupts no cell a longer one leaves free |
| Day18b.StaysClosed | rust/src/day18b.rs:315-324 | once a prefix closes the exit, every longer prefix that reads keeps it closed |
| Day18b.FirstBlocking | rust/src/day18b.rs:306-309 | the byte that first closes the exit is unique: every shorter prefix is open, every longer one closed |
| Day18b.Unchecked | rust/src/day18b.rs:313 | the search starts with no prefix checked |
| Day18b.FirstProbe | rust/src/day18b.rs:310-313 | the first probe is the middle prefix |
| Day18b.Forward | rust/src/day18b.rs:340-345 | after an open prefix the next probe moves forward and stays in range |
| Day18b.Backward | rust/src/day18b.rs:348-352 | after a closed prefix the next probe moves back |
| Day18b.Round | rust/src/day18b.rs:324-355 | a round records its verdict, then answers, stops or moves forward after an open prefix and back after a closed one |
| Day18b.VerdictAt | rust/src/day18b.rs:315-324 | the verdicts are the verdicts of the prefixes |
| Day18b.VerdictsRecorded | rust/src/day18b.rs:324 | what the search records agrees with the prefixes' verdicts |
| Day18b.VerdictsClose | rust/src/day18b.rs:326-329 | a closing byte among the verdicts is a byte that closes the exit |
| Day18b.VerdictsBlock | rust/src/day18b.rs:331-337 | a blocking byte among the verdicts is one whose prefix is open while the next closes |
| Day18b.RoundAsWritten | rust/src/day18b.rs:326-337 | as written, an answered round names a line whose prefix is open and whose successor closes the exit, the last safe byte |
| Day18b.RoundCorrected | rust/src/day18b.rs:326-337 | corrected, an answered round names the byte that closes the exit |
| Day18b.BisectAsWrittenIn | rust/src/day18b.rs:314-356 | as written, an answer of the search is the last byte that leaves the exit open |
| Day18b.BisectCorrectedIn | rust/src/day18b.rs:314-356 | corrected, an answer of the search is the first byte that closes the exit |
| Day18b.BisectAsWritten | rust/src/day18b.rs:306-356 | as written, the search's answer is a byte whose prefix is open and after which the exit closes |
| Day18b.BisectCorrected | rust/src/day18b.rs:306-356 | corrected, the search's answer is the byte that first closes the exit |
| Day18b.Judged | rust/src/day18b.rs:315-324 | the verdict recorded for a prefix is whether the path search succeeds on its grid |
| Day18b.Try | rust/src/day18b.rs:315-324 | building the grid and searching it gives the prefix's verdict |
| Day18b.Unfold | rust/src/day18b.rs:314-356 | the search is one round followed by the search from the next probe |
| Day18b.Advance | rust/src/day18b.rs:324-355 | one round of the loop does what the pure round does, as written |
| Day18b.Search | rust/src/day18b.rs:310-356 | the loop over the probes does what the pure search does, as written |
| Day18b.Solve | rust/src/day18b.rs:283-357 | `do_it` drops blank lines and runs the prefix search as written; with no bytes the source's underflow becomes an error |
| Day18b.CornerWalled | rust/src/day18b.rs:213-252 | on the 2 x 2 grid with (1,0) and (0,1) corrupted the corner has no free neighbour |
| Day18b.LeavesAt | rust/src/day18b.rs:147-263 | a route that leaves a cell has a step where it does so |
| Day18b.TwoBytesGrids | rust/src/day18b.rs:128-145 | the bytes "1,0" and "0,1" corrupt the two cells next to the corner of a 2 x 2 grid |
| Day18b.TwoBytesOpen | rust/src/day18b.rs:315-324 | with only the first byte fallen the exit is open |
| Day18b.OpenCorner | rust/src/day18b.rs:147-263 | on that grid the exit can be reached through the free cell |
| Day18b.TwoBytesClosed | rust/src/day18b.rs:315-324 | with both bytes fallen the exit is closed |
| Day18b.SafeByteAnswered | rust/src/day18b.rs:331-337 | on those two bytes the search as written answers "1,0", the last safe byte, where the byte that closes the exit is "0,1" |
| Day18b.TwoBytesRounds | rust/src/day18b.rs:310-337 | the two rounds of the search on those bytes, as written and corrected |
| Day19a.ConcatPossible | rust/src/day19a.rs:74-82 | every concatenation of towels is a possible pattern |
| Day19a.PossibleConcat | rust/src/day19a.rs:74-82 | every possible pattern is a concatenation of towels |
| Day19a.BuildBuckets | rust/src/day19a.rs:138-149 | each towel is filed under its first letter, once, and every filed towel is a towel |
| Day19a.NoBucket | rust/src/day19a.rs:90-104 | a pattern whose first letter starts no towel is impossible |
| Day19a.BucketExhausted | rust/src/day19a.rs:90-101 | when no towel of the pattern's bucket is a prefix followed by a possible rest, the pattern is impossible |
| Day19a.Memo.constructor | rust/src/day19a.rs:156 | the set of unsolvable patterns starts empty |
| Day19a.IsPossible | rust/src/day19a.rs:69-107 | `is_possible` answers exactly whether the pattern splits into towels, and the memo only ever gains patterns that are impossible |
| Day19a.CountPatterns | rust/src/day19a.rs:156-161 | the filter with one shared memo counts exactly the possible patterns |
| Day19a.ReadTowels | rust/src/day19a.rs:133-136 | the towels are the trimmed comma-separated pieces of the first line |
| Day19a.TowelSet | rust/src/day19a.rs:138-141 | removing duplicates keeps exactly the towels that occur |
| Day19a.ReadInput | rust/src/day19a.rs:127-154 | the input reads exactly when there is a first line and no empty towel (where the source indexes past the end and panics), into the towels and the remaining lines as patterns |
| Day19a.Solve | rust/src/day19a.rs:110-162 | the solver fails exactly when the input does not read, and otherwise counts the patterns that split into towels |
| Day19b.WaysOverRemove | rust/src/day19b.rs:88-97 | the sum over the towels does not depend on the order they are taken in |
| Day19b.WaysOverZero | rust/src/day19b.rs:88-97 | towels that each contribute nothing sum to nothing |
| Day19b.TowelSetLast | rust/src/day19b.rs:136-146 | the towels of a bucket with one more towel are the earlier towels and that one |
| Day19b.TermSumSplit | rust/src/day19b.rs:88-97 | the sum over a bucket of distinct towels is the sum over their set |
| Day19b.BucketSum | rust/src/day19b.rs:87-97 | the number of ways to lay out a pattern is the sum, over its first letter's bucket, of the ways to lay out what each matching towel leaves |
| Day19b.NoBucketNoWays | rust/src/day19b.rs:100-103 | a pattern whose first letter starts no towel has no way to be laid out |
| Day19b.WaysOverPositive | rust/src/day19b.rs:88-97 | the sum is positive exactly when some towel contributes |
| Day19b.WaysPossible | rust/src/day19b.rs:69-104 | a pattern has at least one way to be laid out exactly when part one finds it possible |
| Day19b.Answers.constructor | rust/src/day19b.rs:153 | the memo of answers starts empty |
| Day19b.CountWays | rust/src/day19b.rs:69-104 | `count_possible` returns the number of ways to lay out the pattern, and the memo only ever gains exact answers |
| Day19b.TotalAtLeastPossible | rust/src/day19b.rs:155-158 | the total number of ways is at least the number of possible patterns, and zero exactly when none is possible |
| Day19b.SumWays | rust/src/day19b.rs:153-158 | the sum with one shared memo is the total number of ways over the patterns |
| Day19b.Solve | rust/src/day19b.rs:107-159 | the solver fails exactly when the input does not read, and otherwise sums the ways over the patterns |
| Day20a.AtPut | rust/src/day20a.rs:350-352 | writing one cell of the row-major store changes that cell and no other |
| Day20a.CellOf | rust/src/day20a.rs:151-168 | a map character reads exactly when it is one of `.#SE`, start and end being open floor; anything else is the illegal-character error |
| Day20a.FirstIllegal | rust/src/day20a.rs:150-168 | finds the first character of a line that is not a map character, or shows there is none |
| Day20a.LastIndex | rust/src/day20a.rs:154-166 | finds the last position of a marker in a line, or shows there is none |
| Day20a.Terrains | rust/src/day20a.rs:151-168 | a line's cells are its characters read one by one |
| Day20a.ScanRowOutcome | rust/src/day20a.rs:150-169 | scanning a line fails on its first illegal character and otherwise appends its cells and remembers the last start and end marker |
| Day20a.FirstIllegalRow | rust/src/day20a.rs:149-170 | finds the first illegal character of the map in reading order, or shows every character is legal |
| Day20a.LastIn | rust/src/day20a.rs:146-170 | finds the last occurrence of a marker in reading order, or shows there is none |
| Day20a.TerrainRows | rust/src/day20a.rs:149-170 | the map's rows of cells are its lines read one by one |
| Day20a.ScanRowsOutcome | rust/src/day20a.rs:146-171 | scanning the map fails on its first illegal character and otherwise yields every cell in row-major order with the last start and end marker |
| Day20a.ReadGridOutcome | rust/src/day20a.rs:135-182 | the map reads exactly when it has lines of one width, only legal characters and both a start and an end; the width error comes first, then the first illegal character |
| Day20a.LastInHolds | rust/src/day20a.rs:173-180 | a last marker is found exactly when the marker occurs |
| Day20a.ReadGridCells | rust/src/day20a.rs:135-182 | a map that reads depicts its lines cell for cell with the goal on an end marker |
| Day20a.ReadGridBuilds | rust/src/day20a.rs:173-179 | the grid read has the lines' width and height, their cells and the last end marker as goal |
| Day20a.FlatDepicts | rust/src/day20a.rs:148-170 | the flattened rows place each character's cell at its row-major index |
| Day20a.FlatSize | rust/src/day20a.rs:148 | flattening rows of one width gives width times height cells |
| Day20a.FlatCell | rust/src/day20a.rs:350-352 | the row-major index of an in-bounds point selects that point's cell |
| Day20a.NewGrid | rust/src/day20a.rs:135-182 | the imperative reader agrees with the reading function, result and error alike |
| Day20a.RouteExtend | rust/src/day20a.rs:249-284 | a route to a point extends by one step to an adjacent open cell |
| Day20a.RoutePrefix | rust/src/day20a.rs:249-284 | every prefix of a route is a route to its last point |
| Day20a.ShortestUnique | rust/src/day20a.rs:216-285 | a cell has at most one shortest distance to the goal |
| Day20a.Effective | rust/src/day20a.rs:358-364 | the goal counts as distance zero, a recorded element as its distance, and an unreached cell as none |
| Day20a.CellIndex | rust/src/day20a.rs:350-356 | a point has an index exactly when it is inside the grid, and that index is its row-major position |
| Day20a.CellIndexInjective | rust/src/day20a.rs:350-356 | different points never share an index |
| Day20a.Keys | rust/src/day20a.rs:219-239 | the queue's sort keys are the recorded distances of its points |
| Day20a.Clear | rust/src/day20a.rs:193-195 | the membership flags start all false |
| Day20a.Unreached | rust/src/day20a.rs:196-198 | the distance table starts with every cell unreached |
| Day20a.SetUpStart | rust/src/day20a.rs:192-199 | before the first column nothing is queued and nothing is reached |
| Day20a.NextColumn | rust/src/day20a.rs:199-214 | finishing a column moves the set-up to the top of the next |
| Day20a.EnqueueCell | rust/src/day20a.rs:200-213 | an open cell is queued, and the goal also gets distance zero; a wall is skipped |
| Day20a.Enqueue | rust/src/day20a.rs:192-214 | the set-up loop queues exactly the open cells, column by column, with only the goal reached |
| Day20a.SetUpDone | rust/src/day20a.rs:192-215 | after the set-up the search invariant holds with the goal as its only walk |
| Day20a.Popped | rust/src/day20a.rs:241-244 | removing the picked point by swapping and clearing its flag keeps the queue and the flags in step |
| Day20a.Frontier | rust/src/day20a.rs:216-285 | any route from a reached cell to a queued cell passes through a queued cell whose recorded distance is at most the route's length |
| Day20a.PickedExact | rust/src/day20a.rs:219-247 | the queued point with the least recorded distance has its exact shortest distance |
| Day20a.NothingReached | rust/src/day20a.rs:240-247 | when no queued point has a distance, the picked cell cannot reach the goal, so the source's error is exactly the unreachable case |
| Day20a.RelaxSkip | rust/src/day20a.rs:255-283 | a neighbour outside the grid, already settled or with a distance no worse is left alone and the invariant holds |
| Day20a.RelaxOne | rust/src/day20a.rs:255-283 | lowering a queued neighbour's distance to one more than the current keeps the invariant |
| Day20a.Relax | rust/src/day20a.rs:249-284 | relaxing the four neighbours keeps the search invariant |
| Day20a.RelaxDone | rust/src/day20a.rs:249-285 | after the four neighbours the search invariant holds again |
| Day20a.Settle | rust/src/day20a.rs:241-247 | a point settled with its exact distance stays correct once removed from the queue |
| Day20a.Visit | rust/src/day20a.rs:216-285 | one round of the search keeps the invariant and shrinks the queue |
| Day20a.SearchDone | rust/src/day20a.rs:216-293 | when the queue empties every open cell reaches the goal and holds its shortest distance |
| Day20a.Search | rust/src/day20a.rs:184-293 | the search succeeds exactly when every open cell reaches the goal, and then records every shortest distance; otherwise it gives the source's error |
| Day20a.Gain | rust/src/day20a.rs:310-338 | a recorded saving belongs to a real two-step jump through a wall and is at least one |
| Day20a.Listed | rust/src/day20a.rs:336-338 | a saving is pushed exactly when there is one |
| Day20a.AroundAll | rust/src/day20a.rs:304-309 | the four directions tried cover every direction |
| Day20a.LandsMembers | rust/src/day20a.rs:315-341 | the savings found past one wall are exactly the gains of the landing directions tried |
| Day20a.JumpsMembers | rust/src/day20a.rs:304-344 | the savings found from one cell are exactly the gains of the direction pairs tried |
| Day20a.JumpsSound | rust/src/day20a.rs:304-344 | every saving found from one cell comes from some direction pair |
| Day20a.JumpsComplete | rust/src/day20a.rs:304-344 | every gain of a direction pair from one cell is found |
| Day20a.CellMembers | rust/src/day20a.rs:298-344 | the savings from one cell are exactly the shortcuts that start there |
| Day20a.RowMembers | rust/src/day20a.rs:297-345 | the savings from a row are exactly the shortcuts starting in it |
| Day20a.SavingsMembers | rust/src/day20a.rs:295-347 | the list of savings holds exactly the savings of the shortcuts in the grid |
| Day20a.SavingsSound | rust/src/day20a.rs:295-347 | every listed saving comes from a shortcut in the grid |
| Day20a.SavingsComplete | rust/src/day20a.rs:295-347 | every shortcut's saving is listed |
| Day20a.SavingsPositive | rust/src/day20a.rs:336-338 | every listed saving is at least one step |
| Day20a.GainMeaning | rust/src/day20a.rs:327-338 | through open floor, a shortcut saves the old distance minus the landing's distance plus two, when that is positive |
| Day20a.GainFromWall | rust/src/day20a.rs:327-338 | a jump that starts inside a wall never saves anything |
| Day20a.SavingsDetermined | rust/src/day20a.rs:295-347 | the savings depend only on the grid, not on how the distance table was filled |
| Day20a.SavingsAgree | rust/src/day20a.rs:295-347 | two tables with the same distances give the same savings |
| Day20a.RowGainsAgree | rust/src/day20a.rs:297-345 | two tables with the same distances give the same savings along a row |
| Day20a.LandsAgree | rust/src/day20a.rs:315-341 | equal gains give equal savings past one wall |
| Day20a.JumpsAgree | rust/src/day20a.rs:304-344 | equal savings past each wall give equal savings from the cell |
| Day20a.NoLands | rust/src/day20a.rs:312-313 | no wall next to the cell means no saving in that direction |
| Day20a.LandingGain | rust/src/day20a.rs:321-338 | past a wall, a landing on other open floor saves the difference of the recorded distances less two, when positive |
| Day20a.Landings | rust/src/day20a.rs:315-341 | the inner loop appends exactly the savings past one wall |
| Day20a.CellShortcuts | rust/src/day20a.rs:304-344 | the direction loop appends exactly the savings from one cell |
| Day20a.ScanShortcuts | rust/src/day20a.rs:295-347 | the scan over the grid yields exactly the list of savings |
| Day20a.CountShortcuts | rust/src/day20a.rs:184-348 | `count_shortcuts` succeeds exactly when every open cell reaches the goal, and then lists the savings of the true shortest distances |
| Day20a.AtLeast | rust/src/day20a.rs:394 | the count of savings over a threshold is at most the number of savings |
| Day20a.AtLeastOne | rust/src/day20a.rs:394 | with a threshold of one every saving counts |
| Day20a.AtLeastMonotone | rust/src/day20a.rs:394 | raising the threshold never counts more |
| Day20a.CountAtLeast | rust/src/day20a.rs:394 | the counting loop counts the savings at or over the threshold |
| Day20a.ReadGridValid | rust/src/day20a.rs:135-182 | a grid that reads is well formed with an open goal |
| Day20a.Solve | rust/src/day20a.rs:368-395 | the solver succeeds exactly when the map reads and every open cell reaches the goal, and then counts the savings at or over the threshold |
| Day21a.NumericAt | rust/src/day21a.rs:127-142 | a position reads as a key exactly when it is on the numeric pad and off its gap; any other position is the illegal-position error |
| Day21a.NumericCoordinates | rust/src/day21a.rs:144-159 | a digit or A has a position, and reading that position gives the key back; any other symbol is the illegal-symbol error |
| Day21a.NumericAtInverse | rust/src/day21a.rs:127-159 | the position of the key read at a position is that position |
| Day21a.DirectionalAt | rust/src/day21a.rs:235-244 | a position reads as a key exactly when it is on the directional pad and off its gap, and the key's position is that position |
| Day21a.DirectionalCoordinates | rust/src/day21a.rs:246-254 | every directional key sits on the pad |
| Day21a.DirectionalCoordinatesInverse | rust/src/day21a.rs:235-254 | reading a directional key's position gives the key back |
| Day21a.Repeat | rust/src/day21a.rs:177-204 | a range loop emits one move per step, none for an empty range |
| Day21a.Toward | rust/src/day21a.rs:183-205 | moving along one axis emits as many moves as the distance |
| Day21a.WalkAppend | rust/src/day21a.rs:160-168 | walking two move lists in turn is walking their concatenation |
| Day21a.WalkStraight | rust/src/day21a.rs:176-205 | repeated moves in one direction over cells on the pad end that many cells away |
| Day21a.ClimbWalks | rust/src/day21a.rs:176-181 | from the bottom row the cursor first climbs to the target's row without touching the gap |
| Day21a.AcrossWalks | rust/src/day21a.rs:183-193 | the horizontal moves keep the cursor on the pad and bring it to the target's column |
| Day21a.ColumnWalks | rust/src/day21a.rs:195-205 | the vertical moves keep the cursor on the pad and bring it to the target |
| Day21a.NumericRouteWalks | rust/src/day21a.rs:170-208 | the numeric route reaches the target, never rests on the gap, and is as short as the grid allows |
| Day21a.NumericRouteLength | rust/src/day21a.rs:170-208 | the numeric route's length is the Manhattan distance |
| Day21a.NumericRouteEnds | rust/src/day21a.rs:170-208 | the numeric route ends on the target |
| Day21a.WalkThree | rust/src/day21a.rs:176-205 | three walks in turn compose |
| Day21a.DirectionalLegWalks | rust/src/day21a.rs:266-312 | every table route between directional keys exists, reaches its target, avoids the gap and is as short as the grid allows; no move is emitted when already on the target |
| Day21a.LegsFromUp | rust/src/day21a.rs:274-277 | the routes from the up arrow are sound |
| Day21a.LegsFromA | rust/src/day21a.rs:279-288 | the routes from the A key are sound, with either choice for the left arrow |
| Day21a.LegsFromLeft | rust/src/day21a.rs:290-293 | the routes from the left arrow are sound |
| Day21a.LegsFromDown | rust/src/day21a.rs:295-298 | the routes from the down arrow are sound |
| Day21a.LegsFromRight | rust/src/day21a.rs:300-303 | the routes from the right arrow are sound |
| Day21a.WiggleOnlyFromAToLeft | rust/src/day21a.rs:280-286 | the wiggle rule changes only the route from A to the left arrow |
| Day21a.NumericKeypad.constructor | rust/src/day21a.rs:121-125 | the numeric cursor starts on A |
| Day21a.NumericKeypad.Update | rust/src/day21a.rs:160-168 | a move succeeds exactly when it lands on the pad off the gap, and only then moves the cursor |
| Day21a.NumericKeypad.Repeatedly | rust/src/day21a.rs:177-204 | a range loop of moves shifts the cursor by the range's length and emits that many moves |
| Day21a.NumericKeypad.UpdateTo | rust/src/day21a.rs:170-208 | `update_to` succeeds exactly for digits and A, leaves the cursor on the key and emits the numeric route; for another symbol it emits nothing and stays |
| Day21a.NumericKeypad.MoveTo | rust/src/day21a.rs:176-205 | the three phases bring the cursor to any key of the pad and emit the numeric route |
| Day21a.NumericKeypad.Climb | rust/src/day21a.rs:176-181 | the first phase climbs out of the bottom row |
| Day21a.NumericKeypad.Cross | rust/src/day21a.rs:183-193 | the second phase moves to the target's column |
| Day21a.NumericKeypad.Column | rust/src/day21a.rs:195-205 | the third phase moves to the target's row |
| Day21a.DirectionalKeypad.constructor | rust/src/day21a.rs:229-233 | the directional cursor starts on A |
| Day21a.DirectionalKeypad.Update | rust/src/day21a.rs:256-264 | a move succeeds exactly when it lands on the pad off the gap, and only then moves the cursor |
| Day21a.DirectionalKeypad.UpdateTo | rust/src/day21a.rs:266-346 | `update_to` always succeeds, leaves the cursor on the key and emits the table's leg |
| Day21a.Arrows | rust/src/day21a.rs:366-370 | each emitted direction is pressed as that arrow |
| Day21a.PrefixedTwice | rust/src/day21a.rs:358-373 | pushing two runs of presses in turn pushes their concatenation |
| Day21a.PrefixedNothing | rust/src/day21a.rs:358 | pushing nothing leaves the presses as they are |
| Day21a.NumericSymbolOf | rust/src/day21a.rs:360-364 | a code character reads exactly when it is a digit or A; anything else is the illegal-character error |
| Day21a.NumericPressesStep | rust/src/day21a.rs:359-373 | one character of the code adds its route's arrows and then A |
| Day21a.DirectionalPressesStep | rust/src/day21a.rs:378-387 | one symbol adds its leg's arrows and then A |
| Day21a.PressedAfterWalk | rust/src/day21a.rs:446-464 | replaying arrows moves the cursor along their walk |
| Day21a.PressedKey | rust/src/day21a.rs:446-464 | replaying a route and A presses the key the route ends on |
| Day21a.NumericRoundTrip | rust/src/day21a.rs:357-373 | the numeric level succeeds exactly on codes of digits and A, and its presses, replayed on the numeric pad, type the code without touching the gap |
| Day21a.DirectionalRoundTrip | rust/src/day21a.rs:376-401 | a directional level always succeeds, and its presses, replayed on a directional pad, type the symbols without touching the gap |
| Day21a.SolveRoundTrip | rust/src/day21a.rs:349-468 | `solve` succeeds exactly on codes of digits and A, and the hand presses replayed through the three outer pads type the code |
| Day21a.NumericLevel | rust/src/day21a.rs:357-373 | the first loop of `solve` builds exactly the numeric level's presses or stops at the first illegal character |
| Day21a.DirectionalLevel | rust/src/day21a.rs:376-401 | the second and third loops build exactly a directional level's presses |
| Day21a.Solve | rust/src/day21a.rs:349-468 | `solve` answers the length of the outermost sequence, and succeeds exactly on codes of digits and A |
| Day21a.ComplexityOutcome | rust/src/day21a.rs:491-498 | a line has a share exactly when it matches the code shape with a number that fits a `u64`, and the share is the press count times that number; a line of another shape is the regex error |
| Day21a.CodesPress | rust/src/day21a.rs:494-497 | every line of the code shape can be typed |
| Day21a.TotalOutcome | rust/src/day21a.rs:491-500 | the answer exists exactly when every line has a share, and is then the sum of the shares; otherwise it is the first failing line's error |
| Day21a.RunningStaysFailed | rust/src/day21a.rs:493-499 | once a line fails, the later lines do not change the error |
| Day21a.RunningStep | rust/src/day21a.rs:498 | a line with a share adds it to the running sum |
| Day21a.RunningStops | rust/src/day21a.rs:494-497 | a line without a share ends the answer with its error |
| Day21a.RunningOutcome | rust/src/day21a.rs:492-499 | the running sum over the first lines is their shares' sum, or the first failing line's error |
| Day21a.CollectSnoc | rust/src/day21a.rs:493-499 | collecting one more line appends its share, or fails with its error |
| Day21a.LineShare | rust/src/day21a.rs:494-498 | one line's work, shape, number and `solve`, computes its share or its error |
| Day21a.AddShare | rust/src/day21a.rs:493-499 | one round of the loop adds the line's share to the running sum or stops with the line's error |
| Day21a.DoIt | rust/src/day21a.rs:471-501 | the answer is the sum of the lines' shares over the trimmed non-blank lines, or the first line's error |
| Common.XorUnfold | rust/src/day22a.rs:54 | the lowest bit of a mix is the exclusive or of the lowest bits, and the rest is the mix of the halves |
| Common.XorBits | rust/src/day22a.rs:54 | each bit of a mix is set exactly when the two operands differ in that bit |
| Common.XorBelow | rust/src/day22a.rs:59 | mixing two numbers below a power of two stays below it |
| Common.XorTwice | rust/src/day22a.rs:54 | mixing in the same number twice gives the original number back |
| Day22a.LowIsRemainder | rust/src/day22a.rs:54 | taking the low k bits is the remainder by 2^k, so the prune keeps exactly the low 24 bits |
| Day22a.XorLowBits | rust/src/day22a.rs:54 | the low bits of a mix are the mix of the low bits: pruning commutes with mixing |
| Day22a.MultiplyStep | rust/src/day22a.rs:52-55 | the multiply step, defined only where the product fits in a u64, yields a pruned secret below 2^24 |
| Day22a.DivideStep | rust/src/day22a.rs:57-60 | the divide step yields a pruned secret below 2^24 |
| Day22a.MultiplyStepLowBits | rust/src/day22a.rs:52-55 | the multiply step only depends on the low 24 bits of its input |
| Day22a.XorRemainder | rust/src/day22a.rs:54 | the pruned mix of two numbers is the pruned mix of their pruned values |
| Day22a.DivideStepNoPrune | rust/src/day22a.rs:57-60 | on a pruned secret the divide step's prune removes nothing: it is a plain mix with the quotient |
| Day22a.Next | rust/src/day22a.rs:92-95 | one evolution, multiply by 64, divide by 32, multiply by 2048, yields a secret below 2^24 |
| Day22a.Evolve | rust/src/day22a.rs:91-96 | zero evolutions leave the secret alone and any positive number of them yields a pruned secret |
| Day22a.EvolveAdd | rust/src/day22a.rs:91-96 | evolving m + n times is evolving m times and then n more |
| Day22a.EvolveLowBits | rust/src/day22a.rs:91-96 | the evolved secret depends only on the low 24 bits of the starting number |
| Day22a.SecretSumBound | rust/src/day22a.rs:88-98 | every buyer adds less than 2^24 to the total |
| Day22a.SecretSumStep | rust/src/day22a.rs:89-97 | adding one more buyer adds that buyer's secret after 2000 evolutions |
| Day22a.Evolve2000 | rust/src/day22a.rs:90-96 | the inner loop leaves the secret evolved 2000 times |
| Day22a.SumSecrets | rust/src/day22a.rs:88-99 | the sum succeeds exactly when no starting number overflows the first multiplication, and is then the sum of every evolved secret |
| Day22a.Solve | rust/src/day22a.rs:63-100 | the answer exists exactly when every line parses as a u64 and fits the first multiplication, and is then the sum of every buyer's secret after 2000 evolutions |
| Day22b.Delta | rust/src/day22b.rs:107-109 | a price change is the difference of the two ones digits and lies between -9 and 9 |
| Day22b.Last4 | rust/src/day22b.rs:136-139 | the kept window is the suffix of the change history, four long once there are four changes |
| Day22b.Last4Push | rust/src/day22b.rs:136-139 | trimming the window before pushing a change gives the same window as trimming after |
| Day22b.Deltas | rust/src/day22b.rs:102-111 | a buyer's 2000 steps produce one price change each |
| Day22b.DeltasStep | rust/src/day22b.rs:102-111 | one more step appends the change between the secret before it and the secret after it |
| Day22b.Stream | rust/src/day22b.rs:97-143 | the change history carried across buyers holds 2000 changes per buyer |
| Day22b.BuyerEntries | rust/src/day22b.rs:127-134 | each step of a buyer records one entry, under a window of at most four changes, for that buyer, with a one-digit price |
| Day22b.Entries | rust/src/day22b.rs:97-143 | the whole run records 2000 entries per buyer |
| Day22b.EntryWindows | rust/src/day22b.rs:97-143 | every recorded window has at most four changes, every price is one digit and every recorded buyer is one of the input numbers |
| Day22b.Record | rust/src/day22b.rs:127-134 | recording an entry adds its window as a key, creates exactly its own cell if missing, leaves every other cell alone, and keeps the larger of the old and new price in its cell |
| Day22b.FoldAppend | rust/src/day22b.rs:97-143 | recording two runs of entries one after the other is recording their concatenation |
| Day22b.FoldPush | rust/src/day22b.rs:127-134 | recording one more entry is one more record step |
| Day22b.FoldCells | rust/src/day22b.rs:96-143 | the table has a cell for a window and buyer exactly when some entry was recorded under them |
| Day22b.FoldAtLeast | rust/src/day22b.rs:132 | every cell holds at least the price of every entry recorded under it |
| Day22b.FoldAttained | rust/src/day22b.rs:132-133 | every cell holds the price of some entry recorded under it, so it is the largest such price |
| Day22b.ValueSumRemove | rust/src/day22b.rs:164 | a window's total is any one buyer's price plus the total of the others |
| Day22b.SumValues | rust/src/day22b.rs:164 | summing a window's values gives the total of all its buyers' prices |
| Day22b.BestTotal | rust/src/day22b.rs:164 | an empty table has no best total; otherwise the answer is the total of some window and no window's total is larger |
| Day22b.PushChange | rust/src/day22b.rs:136-139 | pushing a change and popping from the front while longer than four leaves the last four changes |
| Day22b.RecordBuyer | rust/src/day22b.rs:98-140 | one buyer's loop leaves the window at the last four changes of the history and the table with that buyer's 2000 entries recorded |
| Day22b.WindowStep | rust/src/day22b.rs:103-111 | the loop's three steps are one evolution, and pushing its change keeps the window equal to the last four changes of the history |
| Day22b.BuyerStep | rust/src/day22b.rs:127-139 | one more step of a buyer records one more entry into the table |
| Day22b.BuildTable | rust/src/day22b.rs:96-143 | the table is built exactly when no starting number overflows the first multiplication, and is then every buyer's entries recorded in order |
| Day22b.EntriesStep | rust/src/day22b.rs:97-143 | one more buyer extends the change history by its 2000 changes and the entries by its entries, recorded after the earlier buyers' history |
| Day22b.Solve | rust/src/day22b.rs:64-165 | the answer exists exactly when every line parses, fits the first multiplication and there is at least one buyer, and is then the largest window total of the recorded table |
| Day22b.EntriesNonEmpty | rust/src/day22b.rs:97-143 | with at least one buyer the table is not empty |
| Day23a.Sort2 | rust/src/day23a.rs:135-136 | one compare-and-swap returns the two names, in either order, with the larger last |
| Day23a.Sort3 | rust/src/day23a.rs:135-136 | sorting three names yields three names |
| Day23a.Sort3Sorts | rust/src/day23a.rs:135-136 | the sorted triple is a permutation of the three names and is in ascending order |
| Day23a.Sort3Canonical | rust/src/day23a.rs:135-137 | two triples with the same names sort to the same key, so a triangle is recorded once however its names were met |
| Day23a.SortedSame | rust/src/day23a.rs:135-137 | two ascending triples with the same names are equal |
| Day23a.ParseLink | rust/src/day23a.rs:82-87 | a line is a link exactly when it is two parts around a single '-', and the parts are those two names; otherwise the error names the line |
| Day23a.ParseLinks | rust/src/day23a.rs:81-87 | all lines parse into one link each, in order, or the result is the error of some line that is not a link |
| Day23a.Edges | rust/src/day23a.rs:104-105 | the links are recorded both ways round |
| Day23a.Intern | rust/src/day23a.rs:89-102 | interning a name returns its index, adds it at the end only when it is new, keeps the index map and the name list inverse with no duplicates, and gives a new name an empty neighbour set |
| Day23a.BuildGraph | rust/src/day23a.rs:74-106 | the line loop leaves the names in order of first appearance, the index map their inverse, and each neighbour set exactly the indices linked to that name |
| Day23a.AddLink | rust/src/day23a.rs:81-106 | one more link keeps the names in order of first appearance and the neighbour sets exactly the links read so far |
| Day23a.Connect | rust/src/day23a.rs:104-105 | connecting two indices adds each to the other's neighbour set and changes nothing else |
| Day23a.LinkedBefore | rust/src/day23a.rs:104-105 | an index pair is linked in the earlier neighbour sets exactly when its names were an earlier link |
| Day23a.EdgesInAppearance | rust/src/day23a.rs:89-102 | both names of every link have been interned |
| Day23a.Ascending | rust/src/day23a.rs:109-116 | turning a neighbour set into a sorted vector lists every member exactly once, in strictly ascending order |
| Day23a.NeighbourLists | rust/src/day23a.rs:109-116 | every neighbour list holds indices of names |
| Day23a.NeighbourListsSorted | rust/src/day23a.rs:109-116 | every neighbour list is the sorted, duplicate-free listing of the neighbour set |
| Day23a.Ordered | rust/src/day23a.rs:121-141 | the triples the loops visit are indices of names |
| Day23a.OrderedKeys | rust/src/day23a.rs:121-141 | the sorted names of the triples visited in list order are exactly the triangles: two distinct neighbours of a computer that are linked, with some name starting with 't' |
| Day23a.TriangleOrdered | rust/src/day23a.rs:124-130 | every triangle is met by the loops with its two neighbours in list order |
| Day23a.PairsWitness | rust/src/day23a.rs:125-138 | every triple the inner loop records comes from a later neighbour that passes the test |
| Day23a.PairsComplete | rust/src/day23a.rs:125-138 | the inner loop records every later neighbour that passes the test |
| Day23a.RowsAreOrdered | rust/src/day23a.rs:121-141 | the triples recorded by the nested loops over sorted lists are exactly the triples visited in list order |
| Day23a.PairsStep | rust/src/day23a.rs:125-138 | one more inner step adds the sorted names of its triple exactly when that triple passes the test |
| Day23a.CountTriangles | rust/src/day23a.rs:118-142 | the number of distinct sorted triplets recorded is the number of triangles with a name starting with 't' |
| Day23a.RecordRow | rust/src/day23a.rs:121-141 | one outer iteration adds that computer's triangles to the recorded triplets |
| Day23a.RecordPairs | rust/src/day23a.rs:124-140 | the inner loops add every accepted pair of neighbours of one computer from a given first neighbour on |
| Day23a.AdjacencyOf | rust/src/day23a.rs:74-106 | the reference neighbour sets link exactly the names that some line links |
| Day23a.AdjacencyUnique | rust/src/day23a.rs:74-106 | only one family of neighbour sets matches the links, so the loop's sets are the reference ones |
| Day23a.Solve | rust/src/day23a.rs:54-143 | the answer is the error of the first line that is not a link, or else the number of triangles of the links with some name starting with 't' |
| Day23a.ParseAll | rust/src/day23a.rs:81-87 | the line loop's parsing stops at the first line that is not a link, with that line's error, and otherwise yields every link |
| Day23a.ParseLinksFrom | rust/src/day23a.rs:81-87 | parsing from a line on is that line's error or its link followed by the links of the rest |
| Day24a.OpOf | rust/src/day24a.rs:96-101 | the operation word is read back to the operation it names, and every operation's word is read |
| Day24a.WireWords | rust/src/day24a.rs:88-93 | a line accepted as an initial value is a well-formed wire line whose words are the line's words |
| Day24a.GateWords | rust/src/day24a.rs:89-102 | a line accepted as a gate is a well-formed gate line whose words are the line's words |
| Day24a.ParseLine | rust/src/day24a.rs:90-105 | a line that parses is a well-formed wire or gate that renders back to that line; any other line is the parse error naming it |
| Day24a.EscapeChar | rust/src/day24a.rs:104 | `{:?}` writes every character as at least itself |
| Day24a.Escape | rust/src/day24a.rs:104 | escaping never shortens the line |
| Day24a.UnescapeOne | rust/src/day24a.rs:104 | one escaped character, quote, backslash or control character included, reads back as itself |
| Day24a.UnescapeEscape | rust/src/day24a.rs:104 | the escaped line reads back as the line: the escaping loses nothing |
| Day24a.LineError | rust/src/day24a.rs:104 | the message is `error parsing line: ` and the line between quotes, escaped so that it reads back as exactly the line |
| Day24a.ParseRender | rust/src/day24a.rs:88-105 | rendering a well-formed wire or gate line and parsing it gives it back |
| Day24a.Extend | rust/src/day24a.rs:90-105 | reading one more line succeeds exactly when that line parses, and fails with its error |
| Day24a.CircuitReads | rust/src/day24a.rs:90-106 | the circuit is read without error exactly when every line is a wire or a gate |
| Day24a.CircuitFirstError | rust/src/day24a.rs:90-106 | a failed read reports the error of a line before which every line parsed |
| Day24a.ReadCircuit | rust/src/day24a.rs:83-106 | the reading loop yields the circuit the lines describe, later lines overwriting earlier ones of the same name, or the first line's error |
| Day24a.CircuitPrefix | rust/src/day24a.rs:90-106 | once a prefix of the lines fails, the whole read fails with the same error |
| Day24a.Evaluated | rust/src/day24a.rs:113-121 | writing the value of a ready gate to its fresh output keeps every gate evaluated so far correct |
| Day24a.RoundStep | rust/src/day24a.rs:112-122 | visiting one more gate of a round evaluates it when both inputs are known and otherwise leaves it pending |
| Day24a.Round | rust/src/day24a.rs:110-126 | one round evaluates exactly the gates whose inputs were known when it was reached, adds their outputs and nothing else, and evaluates nothing when no gate is ready |
| Day24a.Evaluate | rust/src/day24a.rs:108-127 | when every gate is evaluated each output wire holds its operation applied to its inputs and the initial values are kept; when no pending gate is ready the rounds would go on forever |
| Day24a.EvaluateDone | rust/src/day24a.rs:108-127 | with nothing pending every wire has a value and every gate's output is its operation applied to its inputs |
| Day24a.EvaluateStep | rust/src/day24a.rs:109-127 | removing the gates evaluated in a round keeps the evaluation account of the loop |
| Day24a.AscendingUnique | rust/src/day24a.rs:129-130 | two ascending listings of the same names are equal, so the sorted z-wires are unique |
| Day24a.InsertName | rust/src/day24a.rs:130 | inserting a new name into an ascending listing keeps it ascending with exactly one more name |
| Day24a.SortNames | rust/src/day24a.rs:130 | sorting distinct names gives an ascending listing of exactly those names |
| Day24a.PrefixNames | rust/src/day24a.rs:129-130 | the z-wires in name order are ascending and hold exactly the wires whose names start with the prefix |
| Day24a.BitsValueBits | rust/src/day24a.rs:131-136 | bit i of the assembled number is the value of the i-th wire in name order |
| Day24a.BitsValueBound | rust/src/day24a.rs:131-136 | the assembled number is below 2 to the number of wires |
| Day24a.BitsValueAppend | rust/src/day24a.rs:133-135 | one more wire adds 2 to its position when it is set |
| Day24a.Lookup | rust/src/day24a.rs:129-133 | the bits are the values of the named wires in order |
| Day24a.NumberFromPrefix | rust/src/day24a.rs:129-136 | the assembly loop yields the number whose bits are the values of the z-wires in name order |
| Day24a.CollectPrefix | rust/src/day24a.rs:129 | the filter keeps exactly the names with the prefix, each once |
| Day24a.Assemble | rust/src/day24a.rs:131-136 | bit `i` of the sorted values adds `1 << i`, giving the number those bits spell |
| Day24a.Solve | rust/src/day24a.rs:63-138 | a read error is returned as is; otherwise the run never errs, runs forever when the evaluation gets stuck, and when it returns the wires hold every gate's output and the answer is the number the z-wires spell in name order |
| Day24b.CompareNamesFlip | rust/src/day24b.rs:105 | comparing two names the other way round flips the result |
| Day24b.CompareFlip | rust/src/day24b.rs:102-118 | the input order is antisymmetric: comparing the other way round flips the result |
| Day24b.CompareEqual | rust/src/day24b.rs:102-118 | two inputs compare equal exactly when they have the same wiring, whatever the names and operations of their gates |
| Day24b.CompareNamesTransitive | rust/src/day24b.rs:105 | the name order is transitive, and strict as soon as one step is strict |
| Day24b.CompareTransitive | rust/src/day24b.rs:102-118 | the input order is transitive, and strict as soon as one step is strict |
| Day24b.Normalized | rust/src/day24b.rs:219-234 | normalizing keeps the name and the operation and either keeps or swaps the two inputs |
| Day24b.NormalizedOrdered | rust/src/day24b.rs:223-226 | after normalizing the first input never sorts after the second |
| Day24b.Diff | rust/src/day24b.rs:80-93 | there is no difference exactly when the two trees have the same wiring; otherwise the difference is two distinct subtrees, one from each tree |
| Day24b.GateDiff | rust/src/day24b.rs:257-262 | two gates differ nowhere exactly when both pairs of inputs have the same wiring; otherwise the difference is two distinct subtrees of their inputs |
| Day24b.DiffSymmetric | rust/src/day24b.rs:80-93 | diffing the other way round finds the same place with the two sides swapped |
| Day24b.ResolveInput | rust/src/day24b.rs:71-78 | a resolved name stands for a normalized tree that agrees with the circuit and has that name on top |
| Day24b.ResolveGate | rust/src/day24b.rs:129-140 | a resolved gate carries the circuit's name and operation and is a normalized tree that agrees with the circuit |
| Day24b.TreeValue | rust/src/day24b.rs:129-140 | a tree resolved from the circuit computes the value that evaluating the circuit stores on its top wire |
| Day24b.EvalNormalized | rust/src/day24b.rs:219-234 | normalizing a gate does not change what it computes |
| Day24b.Pad2 | rust/src/day24b.rs:146 | a bit number is written with at least two digits |
| Day24b.AdderNamed | rust/src/day24b.rs:142-217 | the adder's sum gate and carry gate of a bit carry the z and c names of that bit |
| Day24b.Adder | rust/src/day24b.rs:142-217 | the sum gate of a bit is named z followed by the padded bit number and the carry gate c followed by it |
| Day24b.NormalizedNormal | rust/src/day24b.rs:219-234 | normalizing a gate over normalized trees gives a normalized tree |
| Day24b.AdderNormal | rust/src/day24b.rs:142-217 | every gate of the adder's sum and carry trees has its inputs in order |
| Day24b.SumStep | rust/src/day24b.rs:142-217 | the sum of the low n+1 bits of x and y adds the two bits at position n, and the sum of n bits stays below 2^(n+1) |
| Day24b.RippleStep | rust/src/day24b.rs:163-214 | one more bit of the sum is x XOR y XOR the carry in, and it overflows exactly when the majority of the three is set |
| Day24b.AdderGates | rust/src/day24b.rs:142-217 | the sum gate of a bit computes x XOR y XOR the previous carry gate and the carry gate computes their majority |
| Day24b.SumCarry | rust/src/day24b.rs:163-214 | bit n of x + y is x XOR y XOR the carry out of the lower bits, and the carry out of bit n is their majority |
| Day24b.CarryTree | rust/src/day24b.rs:142-217 | the carry tree of every bit computes the ripple carry |
| Day24b.RippleOverflows | rust/src/day24b.rs:142-217 | the ripple carry out of bit n is set exactly when the low n+1 bits of x + y overflow |
| Day24b.AdderNamedAdds | rust/src/day24b.rs:142-217 | for any naming, the sum tree of bit n computes bit n of x + y and the carry tree whether the low n+1 bits overflow |
| Day24b.AdderAdds | rust/src/day24b.rs:142-217 | the adder the source builds is normalized, its sum tree of bit n computes bit n of x + y and its carry tree the overflow of the low n+1 bits |
| Day24b.GetAllNames | rust/src/day24b.rs:264-272 | collecting the names appends the gate names of the tree in preorder |
| Day24b.PreorderNames | rust/src/day24b.rs:264-272 | a name is collected exactly when some gate inside the tree carries it |
| Day24b.BitsStep | rust/src/day24b.rs:142-217 | one more wire of a prefix adds its bit at position n, and n wires spell a number below 2^n |
| Day25a.Chunks | rust/src/day25a.rs:72 | splitting on empty lines always yields at least one chunk |
| Day25a.UnchunkChunks | rust/src/day25a.rs:72 | the chunks joined back with one empty line between neighbours are the lines: the split loses nothing |
| Day25a.ChunksHaveNoEmptyLine | rust/src/day25a.rs:72 | no chunk holds an empty line |
| Day25a.Row | rust/src/day25a.rs:88-89 | the full and empty rows are the width's worth of one character |
| Day25a.ColumnCount | rust/src/day25a.rs:95 | the count of '#' in a column span is at most the span, zero exactly when no row has '#' there and the span exactly when every row does |
| Day25a.Heights | rust/src/day25a.rs:93-103 | every column gets one height, at most the number of rows counted |
| Day25a.ReadChunk | rust/src/day25a.rs:77-107 | a chunk is read exactly when it is non-empty, its lines have one width and it is lock-shaped or key-shaped; the result has that width and height and is a lock exactly for the lock shape |
| Day25a.ChunkHeights | rust/src/day25a.rs:92-112 | a schematic is at least two rows high, has one height per column, and every height is at most the height minus two |
| Day25a.ColumnCountFirst | rust/src/day25a.rs:95 | a row without '#' in the column adds nothing to its count |
| Day25a.ReadChunks | rust/src/day25a.rs:77-107 | reading every chunk gives one schematic per chunk |
| Day25a.ReadChunksEach | rust/src/day25a.rs:77-107 | the chunks are read exactly when each one is, and each schematic is that chunk's own |
| Day25a.LocksOf | rust/src/day25a.rs:93-97 | the locks are drawn from the schematics |
| Day25a.KeysOf | rust/src/day25a.rs:99-103 | the keys are drawn from the schematics |
| Day25a.SharedOut | rust/src/day25a.rs:92-106 | every schematic is either a lock or a key, and each listed lock and key comes from some schematic |
| Day25a.Classify | rust/src/day25a.rs:74-111 | the chunk loop succeeds exactly when every chunk is read and all have the same size, and then yields the locks, the keys and the common height |
| Day25a.ReadChunksStep | rust/src/day25a.rs:77-107 | one more chunk that reads appends its schematic |
| Day25a.ReadChunksStops | rust/src/day25a.rs:77-107 | a chunk that is refused makes the whole read fail |
| Day25a.SizesPush | rust/src/day25a.rs:84 | one more chunk adds its width and height to the sizes |
| Day25a.OneSize | rust/src/day25a.rs:108-111 | with a single size every schematic has that height |
| Day25a.PairsBeforeStep | rust/src/day25a.rs:116-127 | looking at one more pair adds it exactly when it fits, and it was not counted before |
| Day25a.PairsBeforeNextLock | rust/src/day25a.rs:115-128 | finishing the keys of one lock is starting the next lock |
| Day25a.CountKeys | rust/src/day25a.rs:116-128 | the inner loop adds the keys that fit the current lock to the count |
| Day25a.CountFits | rust/src/day25a.rs:114-130 | the nested loops count exactly the fitting (lock, key) pairs |
| Day25a.Solve | rust/src/day25a.rs:55-131 | the answer exists exactly when every chunk is a lock or a key and all have one size, and is then the number of (lock, key) pairs whose column heights add up to at most the height minus two everywhere |
| Day25a.SolveChunks | rust/src/day25a.rs:74-130 | after the split the answer exists exactly when every chunk reads and all have one size, and is then the number of fitting pairs |
| Day25a.FirstChunkHeight | rust/src/day25a.rs:111-112 | when every chunk reads the first schematic is at least two rows high, so the height minus two does not underflow |
| Grid2D.Delta | rust/src/day06b.rs:73-80 | every direction is a unit step along exactly one axis |
| Grid2D.TurnsAreInverse | rust/src/day06b.rs:82-89 | turning left undoes turning right, four right turns come full circle, and a turn always changes the direction |
| Grid2D.TurnRightRotates | rust/src/day06b.rs:73-89 | turning right rotates the step vector a quarter turn clockwise on screen |
| Grid2D.Put | rust/src/day15a.rs:181 | writing a cell keeps the grid's size and the cell's slot lies inside it |
| Grid2D.IndexBounds | rust/src/day06b.rs:200 | an in-bounds point has a slot below width times height |
| Grid2D.IndexInjective | rust/src/day06b.rs:200 | distinct in-bounds points have distinct slots |
| Grid2D.PointAt | rust/src/day08b.rs:122-123 | the point at a slot lies on the row-major grid and has that slot |
| Grid2D.SlotRow | rust/src/day06b.rs:200 | a slot below width times height lies on one of the grid's rows |
| Grid2D.PointAtIndex | rust/src/day08b.rs:122-123 | slot and point are inverse on a row of the given width |
| Grid2D.Positions | rust/src/day08b.rs:122-129 | the listed cells all hold the character, lie before the slot reached, and come in scanning order |
| Grid2D.PositionsComplete | rust/src/day08b.rs:122-129 | every cell before the slot reached that holds the character is listed |
| Grid2D.PositionsMember | rust/src/day08b.rs:122-129 | a listed cell lies on the grid, before the slot reached, and holds the character |
| Grid2D.HitsStart | rust/src/day04a.rs:156-158 | before the scan starts nothing has been found |
| Grid2D.HitsStep | rust/src/day04a.rs:156-158 | one more direction at a cell adds that hit exactly when it is one, and it was not found before |
| Grid2D.HitsNextCell | rust/src/day04a.rs:156-158 | finishing the directions of a cell is starting the next cell |
| Grid2D.HitsNextRow | rust/src/day04a.rs:156-157 | finishing a row is starting the next row |
| Grid2D.HitsEnd | rust/src/day04a.rs:156-158 | after the last row every hit of the grid has been found |
| MinQueue.Pick | rust/src/day16b.rs:278-295 | `max_by` picks the last queue entry that no other entry ranks above, where an entry with a distance ranks above one without and a smaller distance ranks above a larger |
| MinQueue.SwapRemove | rust/src/day16b.rs:301 | removing an entry by `swap_remove` shortens the queue by one and takes out exactly that entry |
| MinQueue.SwapRemoveKeeps | rust/src/day16b.rs:301 | every other entry of the queue stays, and nothing new appears |
| MinQueue.PickedNothing | rust/src/day16b.rs:278-295 | an entry without a distance is picked only when no entry of the queue has one |
| Text.Decimal | rust/src/day11a.rs:76 | `to_string` on an unsigned number is a non-empty run of digits |
| Text.DecimalValue | rust/src/day11a.rs:76 | the digits of a decimal rendering spell the number, with no leading zero unless the number is 0 |
| Text.ParseUnsigned | rust/src/day01a.rs:84 | a value `parse` yields for an unsigned type is below that type's bound |
| Text.ParseDecimal | rust/src/day01a.rs:84 | parsing the decimal rendering of a value below the bound gives the value back |
| Text.Trim | rust/src/day01a.rs:62 | `trim` leaves a string that is empty or has no whitespace at either end |
| Text.TrimIdempotent | rust/src/day01a.rs:62 | trimming twice is trimming once |
| Text.NonBlankLines | rust/src/day22a.rs:77-81 | no more lines are kept than were read, and every kept line is trimmed and not empty |
| Text.SplitOn | rust/src/day23a.rs:82 | `split` on a character yields pieces none of which holds the separator |
| Text.SplitOnJoin | rust/src/day23a.rs:82 | splitting pieces joined by a separator none of them contains gives the pieces back |
| Text.JoinSplitOn | rust/src/day23a.rs:82 | joining the pieces of a split with the separator gives the string back |
| Text.SplitSpaces | rust/src/day02a.rs:49-67 | splitting on runs of whitespace yields at least one piece and no piece holds whitespace |

## Left out

- File reading is not modelled: the `BufReader`/`File::open` code, the puzzle-input paths and the I/O error conversions. Every `Solve` takes the input's lines as a parameter, and the unit tests, which read puzzle-input files, are not modelled either.
- The `regex` crate is not modelled. Each line format the solvers match (the id pairs, the `mul(A,B)` instruction, robots, claw machines, registers, program lines, wires and gates, keypad codes) is a hand-written shape predicate with its own parser.
- Whitespace is ASCII whitespace. Rust's `trim` and the regex `\s` also accept other Unicode spaces.
- `HashMap` and `HashSet` become Dafny maps and sets. Where the source loops over one, the model's contracts do not depend on the iteration order. Where an error message prints one with `{:?}`, the model drops that part, because its printed order is unspecified: Day04a.NewGrid, Day15a, Day15b, Day16b and Day20a.ReadGrid (the line widths), and Day25a.ReadChunk and Day25a.Classify (the widths and the sizes).
- Error messages that print a value with `{}` or `{:?}` keep only their fixed text in Day10a, Day15a, Day15b, Day16b, Day17a and Day20a (the unparsable line, direction, character or height, the point out of bounds, the instruction or combo operand). Whether the result is an error, and in which case, is modelled.
- The debug and display code is not modelled: `Display for State` in day06b.rs:251-276, the printing in day14b.rs:199-211 and 306, day17b.rs:289-291, day21a.rs:406-417 and day22b.rs:150-162, and in day24b.rs `human_readable_string`, `fix_names` and the unfinished `do_it`, which always ends in `todo!()` (day24b.rs:236-401). The unused `z_func` parameters of day24b.rs and day25a.rs are left out.
- `get_number_from_prefix` in day24b.rs:292-305 is the same code as in day24a.rs:129-136 and is modelled once, as Day24a.NumberFromPrefix. Day24b's input reading is Day24a.ReadCircuit.
- day13b.rs is not part of this model: its search window comes from a floating-point solve.
- Integers are unbounded. The model does not capture the u32/u64/usize/i64 overflow of running sums, products and counters: the distance and similarity sums (day 1), the region prices (day 12), the token total (day 13), the GPS sums (day 15), the arrangement counts (day 19), the complexity products and sum (day 21), the secret sums (day 22), the window totals (day 22b), the `1 << shift` of more than 64 z-wires (days 24a and 24b) and the pair count (day 25); days 2, 3, 7, 9, 10 and 11 are listed below. Overflows that decide control flow are modelled as errors: the parsers' range checks, `2u64.pow` in Day17a.Run, the first `* 64` in Day22a.SumSecrets and the subtraction underflow of Day09a.Solve.
- Strings are sequences of characters. The source's `len()` of a line and its string slices count UTF-8 bytes: the width checks of Day06b.ReadLayout, Day08b.ReadGrid, Day10a, Day10b, Day12a, Day12b, Day20a.ReadGrid and Day25a.ReadChunk, and the offsets `file_contents[i..]` of Day03b, which panic at an offset inside a multi-byte character. On ASCII input, which every puzzle input is, the two counts agree; other input is not modelled.
- Panics on malformed input become `Err`: a zero button delta and a short last group in Day13a.Total and Day13a.Solve; no bytes in Day18b.Solve; a missing towel line or an empty towel in Day19a.ReadInput, which part two shares; no buyer in Day22b.Solve, where `max().unwrap()` panics.
- Day14a.Solve: a grid with a zero side is excluded by a precondition, because the source's remainder by zero panics there.
- Day14b.Solve: when a robot starts off the grid the source searches forever; the model returns an error instead. A grid with a zero side is excluded by a precondition, as in Day14a.Solve, because the source's remainder by zero panics there.
- Day17a.Outputs, Day17a.Run and Day17a.Solve run the program for at most `fuel` steps, where the source loops until it halts. Day17a.OutputsFuel shows that a larger bound does not change a completed run.
- Day17b.Solve tries register values below a bound and each run for at most `fuel` steps; the source searches without a bound.
- Day18b.Bisect and Day18b.Search: the `loop` of the prefix search is cut off after `rounds` rounds, and the `"unstable?"` error it can never reach is not modelled.
- Day18b.ShortestPath: it is proved that a returned length is the length of a real route to the goal and that a reachable goal is always found. It is not proved that the length is the least one.
- Day24a.Solve: a circuit whose pending gates can never all fire makes the source loop forever; the model reports `Diverges`. Day24b.ResolveInput and Day24b.ResolveGate report `Endless` for a gate that depends on itself, where the source recurses until the stack overflows.
- Text.ParseUnsigned: its own contract only bounds the value. The round trip with the decimal rendering is Text.ParseDecimal, and the callers' lemmas state which lines parse.
- Day02a, Day02b: the levels are parsed as i32 with the range check, but the difference `b - a` of two levels and its `abs()` are computed exactly. In the source they overflow i32 when the levels lie more than 2^31 - 1 apart, which panics in a debug build.
- Day03b: the u32 overflow of the running sum of products is not modelled. Each product of two numbers of at most three digits fits in u32.
- Day05a.Solve, Day05b.Solve: the input split of day05a.rs:100-144 and day05b.rs:199-238 is not modelled; the solvers take the rules and updates already parsed. That split trims the lines without dropping blank ones. The first `take_while` over rule lines consumes and drops the first line that is not a rule (the blank separator), the second `take_while` over update lines drops the first line after them that is not an update, and any further line gives the error "unmatched line at end of input". A page number that does not fit in a u32 is a parse error.
- Day05b.NewWithNumbers: proves that a returned order is a valid reordering, not that `None` comes back only when no valid reordering exists.
- Day05b.Solve: which reordering the depth-first search returns is pinned only when the rules order the failing update's pages strictly and totally, which makes the reordering unique. For other rule sets the contract ties the answer to the middle pages of some valid reordering per update, not to the particular one the search visits first.
- Day06b.ReadLayout: the width error is "expected unique width" without the set of widths, whose printed order depends on `HashSet` iteration; the unknown-character error names the character as the source does.
- Day07a.IsSolvable, Day07b.IsSolvable: the `2u32.pow` and `3u32.pow` overflow panics become errors. The u64 overflow of `+` and `*` inside `is_solution` is not modelled: values are unbounded naturals.
- Day07a.Solve, Day07b.Solve: the u64 overflow of the final sum is not modelled.
- Day08b.ReadGrid: the width error is "uneven row lengths" without the set of widths, whose printed order depends on `HashSet` iteration.
- Day09b: a gap's position only advances when it was strictly longer than the file, as in the source. The gap left behind has length 0 and fits only empty files, so the quirk does not change the answer, and it is kept as written.
- Day09a, Day09b: the u64 overflow of positions and checksums is not modelled.
- Day10a, Day10b: the u32 counts are unbounded. The `as u32` truncation of the number of reachable peaks (day10a.rs:187) and the u32 overflow of the trail counts and of their sum are not modelled.
- Day10a.CountPeaks: the `visited` vector of `count_paths` is written but never read, so it is not modelled.
- Day10b: the rating is stated as the recursive count of `count_paths`, with no separate definition as a number of trails. What is proved about it is that it bounds the score from above.
- Day24a.LineError: `{:?}` escapes the quote, the backslash and `\n`, `\r`, `\t` and `\0` as modelled. It also writes other control characters and grapheme-extending characters as `\u{...}`, which the model writes as themselves.
- Day11a, Day11b: the u64 overflow of `x * 2024` and of the counts is not modelled. The UTF-8 and parse errors on the two halves cannot occur on a decimal rendering, so they are not modelled either.

## Findings

| source | as written | input that shows it | evidently intended | confidence | as-written member | corrected member |
|---|---|---|---|---|---|---|
| rust/src/day13a.rs:150-180 | for every A count the B count is solved for and accepted when it is at most 100, with no lower bound, so a negative B count is accepted and the cost can be negative | buttons A = (10, 10) and B = (1, 1), prize (5, 5): `a = 100, b = -995` is accepted and the machine costs -695 tokens | a B count below 0 is skipped, as the comment at day13a.rs:139-145 says; the machine costs 5 tokens (`a = 0, b = 5`) and every cost lies between 0 and 400 | not executed | Day13a.NegativeCost | Day13a.CostBounds |
| rust/src/day18b.rs:331-337 | when prefix `0..=count` is solvable and prefix `0..=count+1` is not, the search answers `lines[count]`, the last byte that leaves the exit open | bytes `1,0` then `0,1` on a 2 x 2 grid: the search answers `1,0`, after which the exit is still reachable | answer `lines[count + 1]`, the first byte that closes the exit (here `0,1`) | not executed | Day18b.SafeByteAnswered | Day18b.BisectCorrected |
