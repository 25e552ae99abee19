# Advent of Code 2019 (ijanos/advent2019), days 1–11: a verified model

This project models the Rust solutions of the first eleven Advent of Code
2019 puzzles in the repository `ijanos/advent2019`. Most of the model is
about the IntCode virtual machine.

The repository reimplements the machine five times, and each copy grows on
the last:

- day 2: `calc` with add, multiply and halt on whole words;
- day 5: `run`, with parameter modes, a fixed input value and collected
  outputs;
- day 7: `IntCodeVM::run`, with a LIFO input stack, driven by the
  amplifier chain;
- day 9: `IntCodeVM::next_output`, with relative mode, a relative base,
  4096 cells of zero padding and a deque read from the back;
- day 11: the day-9 machine with a single input register, driven by the
  hull-painting robot.

The puzzles of days 1, 3, 4, 6 and 8 are modelled alongside it:

- day 1: the iterated fuel recurrence;
- day 3: the wire walk and the crossing minima;
- day 4: the digit-run password rules;
- day 6: the orbit map and its depth-first walk;
- day 8: the layered image.

Module layout:

- `Intcode` (intcode.dfy) holds what the copies share: the instruction
  word (opcode `word % 100`, mode digit `word / (10 * 10^n) % 10`, both
  with Rust's truncating operators from `RustInt`), the positional decoder
  of days 5 and 7, the relative decoder of days 9 and 11, and the effect
  of one decoded instruction on a `Core` (program counter, memory,
  relative base).
- `Driver` (driver.dfy) runs any machine given by its one-step function:
  - `Drive` is the resumable "run until an output or the halt" call;
  - `Collect` is the small-step trace of every output up to the halt.
- Each day has its own module. The mutable machines of days 7, 9 and 11
  are classes over an `array<int>` memory, and each of their methods is
  proved against the module's `Step` function through `Driver`.
- `Lineage` (lineage.dfy) proves that the day-5 machine runs every day-2
  program as `calc` does.

How the source's behaviour is represented:

- Panics, `unwrap` failures and `assert!` failures are `Result`/`Event`
  error values.
- Every loop that can run forever takes a `fuel` bound and reports when
  the bound runs out.
- Integers are unbounded.

## Model

| member | source | states |
|---|---|---|
| Day01.FuelOfMass | rust/day01/src/main.rs:23 | the part-1 fuel `m / 3 - 2` of a non-negative mass is the largest `f` with `3 * (f + 2) <= m` |
| Day01.FuelShrinks | rust/day01/src/main.rs:8-14 | a positive fuel needs a mass of at least 9 and is smaller than that mass, so the `allfuel` loop terminates |
| Day01.AllFuel | rust/day01/src/main.rs:4-17 | the loop returns the recursive total (0 once a step asks for no fuel, otherwise that fuel plus the total of it), which is never negative |
| Day01.TotalFuelBounds | rust/day01/src/main.rs:4-17 | the total is non-negative, at least the first step's fuel, and at most half the mass |
| Day01.TotalFuelZero | rust/day01/src/main.rs:8-12 | the total is 0 exactly when `m / 3 - 2 <= 0` |
| Day01.PartsSplit | rust/day01/src/main.rs:23-26 | both part sums add up over any split of the module list |
| Day01.Part1AtMostPart2 | rust/day01/src/main.rs:23-26 | part 2 is non-negative and never below part 1 |
| Day02.StepKeepsSize | rust/day02/src/main.rs:9-23 | a step never changes the size of memory |
| Day02.ExecuteKeepsSize | rust/day02/src/main.rs:8-29 | the memory at the halt has the size of the program |
| Day02.StepEffect | rust/day02/src/main.rs:10-23 | opcode 1 stores `mem[a] + mem[b]`, opcode 2 stores `mem[a] * mem[b]`, at `mem[out]`; pc moves by 4 and no other cell changes |
| Day02.StepOpcodes | rust/day02/src/main.rs:9-28 | the word 99 halts exactly when it is at pc; any word other than 1, 2 and 99 is exactly the unknown-opcode panic |
| Day02.ExecuteOk | rust/day02/src/main.rs:8-29 | a run that halts starts with a step on 1, 2 or 99; the halt returns the memory and a continuing step hands the run to the next machine |
| Day02.CalcRun | rust/day02/src/main.rs:4-31 | `calc` on its own array copy writes noun and verb to cells 1 and 2, runs, and returns cell 0 or the panic, as `Calc` defines |
| Day02.ExecuteInPlace | rust/day02/src/main.rs:8-29 | the in-place loop leaves the array holding the memory at the halt, or reports the run's panic or exhaustion |
| Day02.StepInPlace | rust/day02/src/main.rs:9-28 | one in-place step gives the next pc and array contents of `Step`, `None` at the halt, or its panic with the array unchanged |
| Day02.FindNounVerb | rust/day02/src/main.rs:39-46 | the nested loops with the labelled break compute the search from noun 0 and verb 0 |
| Day02.SearchAt | rust/day02/src/main.rs:39-44 | from `(a, b)`: verb 100 moves to the next noun; a panic stops the search; 19690720 answers `100 * a + b`; any other value moves to the next verb |
| Day02.SearchFindsFirst | rust/day02/src/main.rs:39-46 | an answer `100 * a + b` is for a pair that gives 19690720 after every earlier pair missed; no answer means every pair missed; a panic comes from the first pair that was not a miss |
| Day03.Line | rust/day03/src/main.rs:21-26 | a segment of length n records n cells, cell i at i unit steps from its start |
| Day03.RecordCell | rust/day03/src/main.rs:22 | inserting the next cell at the next step keeps the map the latest-step map of the path |
| Day03.ReadWire | rust/day03/src/main.rs:5-29 | `read_wire` panics exactly on a bad direction letter; otherwise its map holds exactly the walked cells, each with the latest step count at which it was recorded |
| Day03.RecordSegment | rust/day03/src/main.rs:21-26 | the inner loop appends the segment's cells to the path, moves the position `n` unit steps and keeps the step counter equal to the path length |
| Day03.CellsStep | rust/day03/src/main.rs:10-26 | each segment moves its cells from the rest of the wire onto the path, and the walk goes on from the segment's end |
| Day03.CellsWithinReach | rust/day03/src/main.rs:21-26 | every recorded cell is at most as many steps from the start as its step count |
| Day03.LineReach | rust/day03/src/main.rs:21-26 | a unit direction taken i times is i cells from the start |
| Day03.CellsStartAtStart | rust/day03/src/main.rs:21-25 | a walk that records anything records its start at step 0 |
| Day03.MinValue | rust/day03/src/main.rs:43 | the minimum of a non-empty score map is one of its values and at most every value |
| Day03.Part1Minimal | rust/day03/src/main.rs:38-51 | both parts panic exactly when no cell is on both wires off the axes; otherwise part 1 is the Manhattan distance of some crossing and at most that of every crossing |
| Day03.Part2Minimal | rust/day03/src/main.rs:46-51 | part 2 is the step sum of some crossing and at most that of every crossing |
| Day03.StepsAtLeastDistance | rust/day03/src/main.rs:38-51 | for walked wires, 2 <= part 1 <= part 2 |
| Day03.CrossingsBeyondReach | rust/day03/src/main.rs:38-51 | the same bound for any path from the origin that moves one cell per step |
| Day03.OffAxes | rust/day03/src/main.rs:40 | a crossing is on both wires and at least 2 from the origin |
| Day03.StepsReach | rust/day03/src/main.rs:22-25 | a cell recorded at step k of a walk from the origin is at most k away |
| Day04.ToString | rust/day04/src/main.rs:22 | `to_string` gives at least one decimal digit and no leading zero |
| Day04.ToStringRoundTrip | rust/day04/src/main.rs:22 | reading the digits back gives the number |
| Day04.Windows | rust/day04/src/main.rs:19-20 | `windows(2)` is every adjacent pair, in order |
| Day04.TwoSameIff | rust/day04/src/main.rs:19 | `two_same` holds exactly when two adjacent digits are equal |
| Day04.NeverDecSorted | rust/day04/src/main.rs:20 | `never_dec` holds exactly when the digits are sorted |
| Day04.NoLargeGroup | rust/day04/src/main.rs:1-16 | the scan returns true exactly when some maximal run of equal digits has length exactly 2 |
| Day04.ExactPairTwoSame | rust/day04/src/main.rs:1-19 | a run of exactly two implies `two_same` |
| Day04.SortedExactPair | rust/day04/src/main.rs:1-20 | on sorted digits an exact pair's digit appears nowhere else |
| Day04.CountMonotone | rust/day04/src/main.rs:22-23 | over any range the part-2 count is at most the part-1 count, which is at most the range's size |
| Day04.Part2RuleWithoutTwoSame | rust/day04/src/main.rs:23 | a number passes part 2's filter exactly when its digits never decrease and hold a group of exactly two: `two_same` adds nothing there |
| Day04.Part2AtMostPart1 | rust/day04/src/main.rs:22-23 | over 138241..=674034: part 2 <= part 1 <= 535794 |
| Day05.StepDecoded | rust/day05/src/main.rs:75-86 | a step is the effect of the decoded instruction |
| Day05.StepAt | rust/day05/src/main.rs:73-86 | one in-place fetch-decode-execute step on the array is one `Step` |
| Day05.Execute | rust/day05/src/main.rs:76-86 | each decoded instruction's in-place effect (writes, pc by 4 or 2 or jump target, the fixed input, the output, the halt) is `Effect` |
| Day05.Write | rust/day05/src/main.rs:77-84 | `memory[out] = v; pc += width`, or the index panic with memory unchanged |
| Day05.Run | rust/day05/src/main.rs:69-89 | `run` on a copy of the program returns every output in emission order up to the halt, and how the run ended |
| Day05.RunOn | rust/day05/src/main.rs:73-88 | the loop of `run` computes the trace's outputs and end |
| Day05.RunStep | rust/day05/src/main.rs:75-86 | one pass of the loop keeps "outputs so far + rest of the run = whole trace", or ends with the whole trace's outputs and end at a halt or panic |
| Day05.InputIsFixed | rust/day05/src/main.rs:79 | running never changes the fixed input |
| Day05.InputWritesFixed | rust/day05/src/main.rs:79 | an input instruction writes `fixinput` and moves on by 2 |
| Day06.ChildrenOfLines | rust/day06/src/main.rs:10-15 | b is in a's list exactly when the line "a)b" is in the input |
| Day06.BuildOrbits | rust/day06/src/main.rs:9-15 | the keys are exactly the bodies some line starts with, and each list is the body's orbiters in line order |
| Day06.BuildStep | rust/day06/src/main.rs:14 | appending one line's orbiter to its centre's list keeps the map built from the lines so far |
| Day06.ChildrenAbsent | rust/day06/src/main.rs:9-15 | a body no line starts with has no orbiters |
| Day06.FindRoot | rust/day06/src/main.rs:17-19 | the root is a key that is nobody's orbiter; the `unwrap` panics exactly when every key orbits something |
| Day06.Traverse | rust/day06/src/main.rs:21-41 | the stack loop computes `Orbit`, the walk from the root at depth 0 with path [root] |
| Day06.PendingAppend | rust/day06/src/main.rs:26-38 | what a stack owes adds up over a split of the stack |
| Day06.PushAppends | rust/day06/src/main.rs:30-39 | the inner loop pushes one entry per orbiter (depth + 1, path extended by it) and leaves the depth sum alone |
| Day06.PendingKids | rust/day06/src/main.rs:36-38 | the pushed orbiters owe the depth sums one level down |
| Day06.PopSettles | rust/day06/src/main.rs:27-38 | popping an entry settles its depth and moves what its orbiters owe onto the stack |
| Day06.DfsSettles | rust/day06/src/main.rs:26-41 | a finished walk adds exactly what its stack owed |
| Day06.OrbitCount | rust/day06/src/main.rs:21-42 | part 1 is the total number of direct and indirect orbits: the sum of every body's depth under the root |
| Day06.PushKeepsPaths | rust/day06/src/main.rs:30-39 | the inner loop keeps every stack path a walk from the root and records only such walks for YOU and SAN |
| Day06.DfsKeepsPaths | rust/day06/src/main.rs:26-41 | the whole walk keeps that invariant |
| Day06.OrbitRecordsPaths | rust/day06/src/main.rs:22-41 | the YOU and SAN sets are empty or exactly the bodies on the root-to-parent path |
| Day06.PushRecords | rust/day06/src/main.rs:30-34 | meeting YOU (or SAN) among the orbiters records a non-empty path, and a recorded set stays non-empty |
| Day06.PopKeepsOwed | rust/day06/src/main.rs:27-39 | a pop records the target or leaves a stack entry from which the target is reached |
| Day06.DfsRecords | rust/day06/src/main.rs:26-41 | a finished walk records the target once some entry on its stack reaches it |
| Day06.OrbitRecordsReached | rust/day06/src/main.rs:22-41 | the converse of `OrbitRecordsPaths`: when a walk from the root leads to a body YOU (or SAN) orbits, the finished walk's set for it is not empty |
| Day06.WalkUnique | rust/day06/src/main.rs:22-41 | when every body orbits one centre and the root orbits nothing, two walks from the root to the same body are the same walk |
| Day06.WalkDistinct | rust/day06/src/main.rs:36-38 | on such a map a walk never repeats a body |
| Day06.Shared | rust/day06/src/main.rs:44 | the longest common prefix of two paths: the paths agree on it and differ right after it, or one of them ends there |
| Day06.PartedTails | rust/day06/src/main.rs:44 | on such a map two walks from the root share no body past their longest common prefix |
| Day06.RecordedIsWalk | rust/day06/src/main.rs:30-33 | on such a map the finished walk's set for YOU (or SAN) is exactly the bodies of the one walk to the body it orbits |
| Day06.OrbitTransfers | rust/day06/src/main.rs:22-45 | part 2 of the walk: on such a map the recorded sets are the two walks p and q, and the symmetric difference has `|p| + |q| - 2 * Shared(p, q)` bodies, the transfers from the two bodies back to the last one the walks share |
| Day06.DistinctSize | rust/day06/src/main.rs:44 | a path without repeats has as many bodies as entries |
| Day06.SplitElements | rust/day06/src/main.rs:44 | a path without repeats splits into a shared prefix and a disjoint rest |
| Day06.SharedPart | rust/day06/src/main.rs:44 | sets sharing a part differ by exactly their own parts |
| Day06.TransferCount | rust/day06/src/main.rs:44 | for two paths sharing exactly their first c bodies, the symmetric difference has `|p| + |q| - 2c` bodies |
| Day07.IntCodeVM.constructor | rust/day07/src/main.rs:77-79 | memory is an unpadded copy of the program, pc 0, and the buffer is the stack with its last element on top |
| Day07.IntCodeVM.Run | rust/day07/src/main.rs:80-96 | `run` returns the first output (pc already past it), the halt or the panic, with the state `Drive` gives |
| Day07.IntCodeVM.StepOnce | rust/day07/src/main.rs:83-92 | one in-place step is one `Step` |
| Day07.IntCodeVM.Execute | rust/day07/src/main.rs:84-92 | each decoded instruction's in-place effect, input popping the top of the stack, is `Effect` |
| Day07.IntCodeVM.Write | rust/day07/src/main.rs:85-92 | `mem[out] = v; pc += width` with the stack unchanged, or the index panic |
| Day07.IntCodeVM.FeedInput | rust/day07/src/main.rs:97-99 | `feedInput` pushes onto the top of the stack and changes nothing else |
| Day07.InputPopsTop | rust/day07/src/main.rs:87 | an input instruction writes the top of the stack and pops it, and panics on an empty stack |
| Day07.FedReadFirst | rust/day07/src/main.rs:97-99 | a fed value is read next, with the stack below as before |
| Day07.PhaseThenSignal | rust/day07/src/main.rs:110 | a machine started with `[signal, phase]` reads the phase first, then the signal |
| Day07.BaseStaysZero | rust/day07/src/main.rs:19-68 | the decoder has no base adjust, so the relative base stays 0 |
| Day07.Amplify | rust/day07/src/main.rs:108-112 | five fresh machines chained from signal 0, each machine's first output the next signal, is `Chain` |
| Day07.MaxThrusterSignal | rust/day07/src/main.rs:106-116 | the loop over the permutations computes `Best` from 0 |
| Day07.BestIsMaximum | rust/day07/src/main.rs:113-115 | the result is at least the start and at least every chain's signal, and it is the start or one of those signals |
| Day07.BestFailsOnFirstFailure | rust/day07/src/main.rs:106-116 | the search fails exactly when some permutation's chain fails |
| Day08.Layers | rust/day08/src/main.rs:12 | every chunk is non-empty and at most 150 digits long |
| Day08.LayersSlice | rust/day08/src/main.rs:12 | there are `ceil(n / 150)` layers; layer k is the input from `150k` to the next multiple of 150 or the end |
| Day08.LayersFlatten | rust/day08/src/main.rs:12 | the layers joined end to end give back the input |
| Day08.FewestZeros | rust/day08/src/main.rs:13 | `min_by_key` picks a layer with the fewest zeros, the first one on a tie |
| Day08.TallyCounts | rust/day08/src/main.rs:13-19 | the fold adds the layer's count of ones and of twos to its start value |
| Day08.Part1Checksum | rust/day08/src/main.rs:13-20 | part 1 panics only on an empty image; otherwise it is ones times twos of the first layer with the fewest zeros |
| Day08.Pixel | rust/day08/src/main.rs:23 | a pixel is the first 0 or 1 going down the layers, every layer above it being 2 there; otherwise it is the panic of an all-transparent pixel or of a layer too short to index |
| Day08.Screen | rust/day08/src/main.rs:22-24 | the composite is the first n pixels in order, or the panic of the first pixel without a colour |
| Day08.WholeLayers | rust/day08/src/main.rs:5-12 | an image of whole layers has only 150-digit layers |
| Day08.Part2Whole | rust/day08/src/main.rs:22-24 | on whole layers the composite has 150 pixels, each 0 or 1, and the only panic is an all-transparent pixel |
| Day09.IntCodeVM.constructor | rust/day09/src/main.rs:31-40 | memory is the program followed by 4096 zeros, pc and base 0, and the buffer is the queue as given |
| Day09.IntCodeVM.NextOutput | rust/day09/src/main.rs:42-58 | `next_output` returns the first output (pc already past it), the halt with pc unmoved, or the panic, with the state `Drive` gives |
| Day09.IntCodeVM.StepOnce | rust/day09/src/main.rs:45-55 | one in-place step is one `Step` |
| Day09.IntCodeVM.Execute | rust/day09/src/main.rs:46-55 | each decoded instruction's in-place effect, including base adjust and input from the back of the queue, is `Effect` |
| Day09.IntCodeVM.Write | rust/day09/src/main.rs:46-53 | `mem[out] = v; pc += width` with queue and base unchanged, or the index panic |
| Day09.IntCodeVM.CollectOutput | rust/day09/src/main.rs:60-66 | `collect_output` returns every output in emission order up to the halt: the trace `Collect` |
| Day09.IntCodeVM.FeedInput | rust/day09/src/main.rs:68-70 | `feed_input` pushes onto the front of the queue and changes nothing else |
| Day09.PendingReversed | rust/day09/src/main.rs:37 | the initial buffer is read last element first |
| Day09.FedReadLast | rust/day09/src/main.rs:68-70 | a fed value is read after every value already queued |
| Day09.InputReadsNextPending | rust/day09/src/main.rs:48 | an input instruction writes the back of the queue and drops it, and panics on an empty queue |
| Day09.OnlyInputConsumes | rust/day09/src/main.rs:46-55 | no other instruction touches the queue |
| Day09.InitialMemory | rust/day09/src/main.rs:32-33 | memory starts as the program and then 4096 zero cells |
| Day09.StepKeepsSize | rust/day09/src/main.rs:46-54 | a step keeps the memory size |
| Day09.MemorySizeKept | rust/day09/src/main.rs:31-58 | memory never grows over a call or a whole run |
| Day09.LargeOutput | rust/day09/src/main.rs:132-137 | `104,1125899906842624,99` outputs the 16-digit literal unchanged, and the next call halts |
| Day09.LargeOutputSteps | rust/day09/src/main.rs:133-136 | its two steps: the output, then the halt |
| Day09.StepDecoded | rust/day09/src/main.rs:45 | a step is the effect of the decoded instruction |
| Day09.QuineAdjust | rust/day09/src/main.rs:140 | `109,1` moves the base up by one |
| Day09.QuinePrint | rust/day09/src/main.rs:140 | `204,-1` outputs program cell k |
| Day09.QuineCount | rust/day09/src/main.rs:140 | `1001,100,1,100` increments the counter in cell 100 |
| Day09.QuineCompare | rust/day09/src/main.rs:140 | `1008,100,16,101` records in cell 101 whether the counter reached 16 |
| Day09.QuineLoop | rust/day09/src/main.rs:140 | `1006,101,0` jumps back to 0 until the flag is set |
| Day09.QuineHalt | rust/day09/src/main.rs:140 | `99` halts |
| Day09.QuineRound | rust/day09/src/main.rs:140-143 | round k outputs program cell k and returns to the start with counter and base k + 1 (round 16 reaches the halt) |
| Day09.QuineLastRound | rust/day09/src/main.rs:140-143 | the last round outputs the last cell and halts |
| Day09.QuineInduct | rust/day09/src/main.rs:139-144 | a round moves the layout to the next counter value, and what rounds k + 1 onward print, preceded by cell k, is what rounds k onward print |
| Day09.QuineFrom | rust/day09/src/main.rs:139-144 | from round k on the program prints cells k..15 and halts |
| Day09.QuineReproducesItself | rust/day09/src/main.rs:139-144 | the quine's whole output is exactly its own program text, and it ends at the halt |
| Day11.IntCodeVM.constructor | rust/day11/src/main.rs:30-39 | memory is the program then 4096 zeros, pc and base 0, and the register holds `input` |
| Day11.IntCodeVM.NextOutput | rust/day11/src/main.rs:41-57 | `next_output` returns the first output (pc past it), the halt with pc unmoved, or the panic, as `Drive` gives |
| Day11.IntCodeVM.StepOnce | rust/day11/src/main.rs:44-54 | one in-place step is one `Step` |
| Day11.IntCodeVM.Execute | rust/day11/src/main.rs:45-54 | each decoded instruction's in-place effect, input reading the register, is `Effect` |
| Day11.IntCodeVM.Write | rust/day11/src/main.rs:45-52 | `mem[out] = v; pc += width` with register and base unchanged, or the index panic |
| Day11.IntCodeVM.CollectOutput | rust/day11/src/main.rs:59-65 | `collect_output` returns every output in emission order up to the halt |
| Day11.IntCodeVM.SetInput | rust/day11/src/main.rs:67-69 | `set_input` replaces the register and nothing else |
| Day11.InputKept | rust/day11/src/main.rs:47 | running never changes the register |
| Day11.InputReadsRegister | rust/day11/src/main.rs:47 | an input instruction writes the register's value without consuming it and moves on by 2 |
| Day11.ModuloRange | rust/day11/src/main.rs:120-122 | for every divisor b > 0, `modulo(a, b)` lies in 0..b and is congruent to a modulo b, whatever the sign of a |
| Day11.ModUnique | rust/day11/src/main.rs:121 | a remainder in 0..b of a division by b > 0 is the Euclidean remainder |
| Day11.ModuloFour | rust/day11/src/main.rs:131-132 | the instance b = 4 that the turns use: `modulo(a, 4)` lies in 0..4 and is congruent to a modulo 4 |
| Day11.NextPoseSteps | rust/day11/src/main.rs:129-142 | turn 0 turns left and turn 1 turns right, and any other code is the wrong-turn panic; the direction stays in 0..3, and the robot moves one panel in its new direction |
| Day11.TurnsCompose | rust/day11/src/main.rs:131-132 | a left turn undoes a right turn, and four right turns are the identity |
| Day11.MovesOnePanel | rust/day11/src/main.rs:135-141 | every move is to a neighbouring panel |
| Day11.Robot.constructor | rust/day11/src/main.rs:125-127 | the robot starts at the origin, facing up |
| Day11.Robot.TurnAndMove | rust/day11/src/main.rs:129-142 | `turn_and_move` takes the next pose, or on a wrong turn reports it and changes nothing; the direction stays valid |
| Day11.Paint | rust/day11/src/main.rs:146-166 | `paint`: seed the origin, then each round paints with the first output (asserted < 2), turns and moves with the second, and sets the input to the new panel's colour; it stops at the first halt |
| Day11.PaintKeeps | rust/day11/src/main.rs:150-164 | painting only adds panels, keeps the origin, and stores bytes |
| Day11.PaintedCount | rust/day11/src/main.rs:185 | part 1, the size of the panel map of `paint(&input, 0)`, fails exactly when painting fails and with the same fault; otherwise it counts the origin, so it is at least 1 |
| Driver.Drive | rust/day09/src/main.rs:42-58 | a call spends at most its fuel; an output, halt or panic spends at least one step, and running out leaves no fuel |
| Driver.Collect | rust/day09/src/main.rs:60-66 | a trace never ends on an output and spends at most its fuel |
| Driver.DriveStepped | rust/day09/src/main.rs:44-56 | a call is one step followed by the rest of the call, or stops at that step's output, halt or panic |
| Driver.CollectStepped | rust/day09/src/main.rs:60-66 | a trace is one step followed by the rest, with an output prepended |
| Driver.CollectAdvance | rust/day09/src/main.rs:61-63 | one iteration of the output-gathering loop keeps "gathered + rest = whole trace" |
| Driver.CollectByDrive | rust/day09/src/main.rs:60-66 | calling `next_output` until it stops returning outputs yields the whole trace |
| Driver.HaltIsSticky | rust/day09/src/main.rs:55 | after a halt every further call halts again and changes nothing |
| Driver.DriveFuelMonotone | rust/day09/src/main.rs:42-58 | more fuel never changes an answer that did not run out of fuel |
| Driver.CollectFuelMonotone | rust/day09/src/main.rs:60-66 | the same for the whole trace |
| Driver.DriveKeeps | rust/day09/src/main.rs:42-58 | a property every step keeps holds after a call |
| Driver.CollectKeeps | rust/day09/src/main.rs:60-66 | the same after a whole run |
| Intcode.Zeros | rust/day09/src/main.rs:33 | the padding is n zero cells |
| Intcode.WordRoundTrip | rust/day09/src/main.rs:76-93 | an opcode and three mode digits written as a word read back as themselves |
| Intcode.WordFields | rust/day09/src/main.rs:76-93 | the same, for a word given by its value |
| Intcode.WordDecomposes | rust/day09/src/main.rs:76-93 | every word in 0..100000 is the encoding of its opcode and mode digits |
| Intcode.NegativeWordUnknown | rust/day09/src/main.rs:93-104 | a negative word's truncated opcode is not positive, so it is never a known instruction |
| Intcode.RelativeUnknownIff | rust/day09/src/main.rs:93-104 | the relative decoder reports an unknown opcode exactly when `word % 100` is not 1..9 or 99, and names it |
| Intcode.PositionalUnknownIff | rust/day05/src/main.rs:20-64 | the positional decoder reports an unknown opcode exactly when `word % 100` is not 1..8 or 99, and never yields a base adjust |
| Intcode.ParamByMode | rust/day09/src/main.rs:74-90 | a source operand in mode 1 is the literal, in mode 2 `mem[base + p]`, otherwise `mem[p]`; a destination in mode 1 panics, in mode 2 is `base + p`, otherwise `p` |
| Intcode.RelativeModes3 | rust/day09/src/main.rs:74-101 | add, multiply, less-than and equals decode by that table: sources by their own mode digits, the destination by the third |
| Intcode.RelativeModes12 | rust/day09/src/main.rs:74-102 | input, output, the jumps and base adjust decode by the same table |
| Intcode.PositionalModes3 | rust/day05/src/main.rs:18-62 | the day-5/day-7 decoder reads a source as a literal only for mode digit 1, and takes the destination as the raw word whatever its digit |
| Intcode.RelativeExtendsPositional | rust/day09/src/main.rs:73-106 | on modes 0 and 1, positional destinations and no base adjust, the day-9 decoder agrees with the day-5/day-7 one |
| Intcode.ExecFrame | rust/day09/src/main.rs:46-55 | an instruction changes at most its destination (to a+b, a*b, 1/0 or the input), keeps the memory size, moves the base only on base adjust, and moves pc by its width or to a taken jump's target; only output emits, only halt halts, and only a bad destination or missing input panics |
| Lineage.Day02Arith | rust/day02/src/main.rs:10-23 | the day-2 add/multiply step, written out: operand words, sources, target, store, pc + 4 |
| Lineage.Day05Arith | rust/day05/src/main.rs:21-32 | the day-5 machine does the same step on the words 1 and 2 |
| Lineage.ArithAgrees | rust/day02/src/main.rs:10-23 | both machines agree on add and multiply, panics included |
| Lineage.OperandsMissing | rust/day05/src/main.rs:22-24 | both panic on the first operand word past the end of memory |
| Lineage.OperandsMissingDecodes | rust/day05/src/main.rs:21-31 | the day-5 decoder panics on that word |
| Lineage.SourceOutside | rust/day05/src/main.rs:18-25 | both panic on the first source outside memory |
| Lineage.SourceOutsideDecodes | rust/day05/src/main.rs:18-19 | the day-5 decoder panics on that source |
| Lineage.SourcesInside | rust/day05/src/main.rs:77-78 | with both sources inside, both store the same value or panic on the same target |
| Lineage.ArithEffect | rust/day05/src/main.rs:77-78 | the decoded add or multiply has the day-2 effect on the day-5 machine |
| Lineage.ArithDecodes | rust/day05/src/main.rs:18-31 | the words 1 and 2 decode to add and multiply of the positional sources |
| Lineage.AddAgrees | rust/day02/src/main.rs:10-16 | the two machines agree on add |
| Lineage.MulAgrees | rust/day02/src/main.rs:17-23 | the two machines agree on multiply |
| Lineage.HaltAgrees | rust/day02/src/main.rs:24-26 | the two machines agree on halt |
| Lineage.StepAgrees | rust/day02/src/main.rs:9-28 | on the words 1, 2 and 99, and on a pc outside memory, a day-5 step is the day-2 step |
| Lineage.ExecuteAgrees | rust/day02/src/main.rs:8-29 | a day-2 run that halts is a day-5 run that halts on the same memory with no output |
| Lineage.HaltsTogether | rust/day02/src/main.rs:24-26 | at the last step both machines halt on the same memory |
| Lineage.ContinuesTogether | rust/day02/src/main.rs:8-29 | a continuing step hands both runs to the same machine |
| RustInt.Rem | rust/day05/src/main.rs:20 | Rust's `%`: `a == (a / b) * b + r`, `|r| < |b|`, and r takes the sign of a |
| RustInt.QuotRem | rust/day05/src/main.rs:18-20 | truncating division leaves a remainder smaller than the divisor with the dividend's sign |
| RustInt.NonNegativeAgrees | rust/day05/src/main.rs:18-20 | on a non-negative dividend and a positive divisor Rust's and Euclidean `/` and `%` agree |
| RustInt.NegativeRem | rust/day09/src/main.rs:93 | a negative dividend never leaves a positive remainder |

## Left out

- Reading standard input and parsing it (comma and line splitting, `parse`, the day-8 `to_digit`) is not modelled: every program, wire, module list, orbit list and image is a parameter.
- `println!`/`print!` are not modelled. This includes day 4 printing the label "Part 2" for both counts, day 8's screen renderer and day 11's `pretty_print`. Day 2's search returns `100 * noun + verb` instead of printing it.
- Fixed-width integers (`isize`, `i64`, `usize`, `u8`, the `i8` of the robot's direction) are unbounded `int`. Overflow is not modelled.
- Casts are written out where they decide behaviour:
  - `as u8` on colours and turn codes is `% 256`;
  - a negative `as usize` address or jump target is an index outside memory, which panics on use.
- Panics are error values. The state after a panic is not modelled: a faulting step leaves the machine as it was before the instruction.
- Every loop that can run forever takes a fuel bound: the machines' run loops, `collect_output`, `paint` and the day-6 walk. Running out of fuel is reported as its own outcome. The Rust loops have no such bound. `allfuel` needs none: its loop is proved to terminate.
- Day07.Amplify and Day07.MaxThrusterSignal give each amplifier the same fuel rather than a shared budget.
- The `itertools` permutation generator is a foreign library. The list of phase permutations is a parameter of the chain search.
- Day 6's `HashMap`/`HashSet` iteration order is unspecified. Day06.FindRoot returns some key that is nobody's orbiter, not a particular one.
- Day 3's map value is a pair whose first component is always 1. The model keeps only the step count.
- The 100×100 noun/verb search and the 138241..=674034 count are modelled as functions and not evaluated.
- Day04.NoLargeGroup requires a non-empty string, because the source indexes `pw[0]`. Every caller passes `n.to_string()`, which is never empty.
- Day06.OrbitTransfers, Day06.RecordedIsWalk, Day06.WalkUnique: stated for maps on which every body orbits at most one centre and the root orbits nothing, as the puzzle's input guarantees. On other maps the walk may record a YOU or SAN path several times, and the model states only that the last recorded set is a non-empty walk (Day06.OrbitRecordsPaths with Day06.OrbitRecordsReached).
- Day06.OrbitCount and Day06.DfsSettles: stated for orbit maps whose tree under the root is finite (`Total` is defined within the bound h). On a cyclic map the Rust walk runs forever; the model reports that as exhaustion of its fuel.
- Lineage.ExecuteAgrees: relates day-2 runs that reach the halt; a day-2 run that panics is related one step at a time by Lineage.StepAgrees, not as a whole run.
- Day11.PaintKeeps: states what painting preserves. The exact panel map of each round is stated by Day11.Paint against `Painting`.
- The memory of days 9 and 11 is fixed at the program plus 4096 zero cells and never grows: an address past it panics.
- Input order differs per copy:
  - day 7 pops the top of a stack;
  - day 9 reads the back of its deque and `feed_input` pushes the front, so the initial buffer is read last element first;
  - day 11 reads a register that input never consumes.
- There is no feedback ring of amplifiers: day 7 chains five fresh machines once per permutation.
- Day 9's two unit tests are proved as lemmas (Day09.LargeOutput, Day09.QuineReproducesItself). Day09.UnitTests states the same two assertions against the class; it is a method with no contract.
