# Blindfold commutator drills, modelled in Dafny

The repository generates practice drills for blindfold puzzle solving. A
*letter scheme* names every sticker of one piece type with a letter. Its
*blocks*, such as `UVJ OIF ERN ...`, each list the stickers of one piece.
The *buffer* is the sticker that every commutator (a *comm*, written as a
pair of letters) cycles through.

The engine exists twice: in JavaScript for the web page and in Python. It has
five parts, and this project models each one in Dafny and proves what it
promises:

* **Scheme parsing and validation** (module `Scheme`, plus parts of `App`).
  * Raw text becomes blocks; a single flat token becomes one-letter blocks.
  * Every letter is mapped to its home `(block, slot)`.
  * The blocks up to the buffer's block are trimmed away.
* **The permutation/orientation simulator** (module `Puzzle`; the Python
  tracer's extras are in module `Tracer`).
  * The state is `pieces[pos]`, a permutation, and `oris[pos] < blockLen`.
  * `Puzzle.State` is a class over two arrays. Its methods change them in
    place and are proved against pure specification functions on a `Config`
    value.
  * Covered operations: sticker swaps, three-cycles, letter lookup and
    tracing the cycle from the buffer.
* **The five-cycle synthesizer** (module `FiveCycle`).
  * It makes a bounded number of attempts. Each attempt picks four pieces
    and three comms, applies them to a solved puzzle and keeps the result
    only if it leaves a five-cycle through the buffer.
  * It then appends two cleanup comms read off that trace.
  * The JavaScript and the Python versions are modelled separately where
    they differ.
* **The chain synthesizer** (module `Chain`).
  * Nested bounded retry loops build shuffled passes over the usable blocks,
    rotate them and concatenate them.
  * The result is a chain of letters in which neighbours, and the two ends,
    come from different blocks.
  * The Python version can also force a pair into the chain.
* **The page helpers** (module `App`): the buffer menu, the letter table,
  the required-pair parser and the chain post-processing.

Randomness is a parameter. `Oracle.Rng` is a tape of pre-drawn integers, and
every draw is an index below `n`. So any sequence of random choices can be
forced, and every guarantee holds whatever the draws are. Errors that the
source throws are `Err` values of a `Result`.

Modules:

| module | file | covers |
|---|---|---|
| `Wrappers` | wrappers.dfy | `Option`, `Result` |
| `Text` | text.dfy | trimming, splitting and upper-casing strings |
| `Seqs` | seqs.dfy | rotations, distinctness |
| `Oracle` | oracle.dfy | `Rng`, random choice, Fisher–Yates shuffle, sampling |
| `Arith` | arith.dfy | JavaScript's truncated `%` and the non-negative modulus |
| `Scheme` | scheme.dfy | block normalisation, scheme data, buffer trimming |
| `Puzzle` | puzzle.dfy | the simulator |
| `Composition` | composition.dfy | states as moves: composition, and why rotated comms still return to solved |
| `Tracer` | tracer.dfy | `view_state_labels` and `full_sticker_cycles` |
| `FiveCycle` | fivecycle.dfy | the five-cycle synthesizer |
| `Chain` | chain.dfy | the chain synthesizer |
| `App` | app.dfy | the page helpers |

A member that models both implementations cites the JavaScript lines. Its
Python twin is named in the third column.

`swapStickers` on two stickers of one piece only turns that piece
(five_cycle.js:66-81). So swapping twice restores the state only for letters
on different pieces (`Puzzle.SwapTwiceRestores`), and `Puzzle.SwapTwist`
states when the same-piece swap fails.

The comment of `random_shift_comms` (python/five_cycle.py:350-353) promises
that rotating the comms keeps them returning to solved. The module
`Composition` proves this. A state also stands for the moves that reach it
from solved. A swap from any state is the swap from solved, composed on the
right. So a sequence of comms from any state is that sequence from solved,
composed on the right. If `xs + ys` undoes itself, then `ys + xs` does too.

## Model

| member | source | states |
|---|---|---|
| Oracle.Choice | five_cycle.js:122-125 | `rngChoice` / `randomChoice` / `rng.choice`: the chosen element is one of the array's |
| Oracle.NextReaches | five_cycle.js:122-125 | every index below `n` is a possible draw, so no choice is excluded |
| Oracle.Shuffle | five_cycle.js:127-132 | in-place Fisher–Yates on an array: the new contents are a permutation of the old, and distinct elements stay distinct |
| Oracle.Shuffled | web/chain.js:2-8 | `shuffle([...xs])`: a shuffled copy of the same length, with the same multiset |
| Oracle.Sample | five_cycle.js:134-141 | fails exactly when more items are requested than exist; otherwise returns `count` items, all from the input and distinct when the input is |
| Arith.TruncRem | five_cycle.js:49-50 | JavaScript `%`: the remainder has the sign of the dividend and absolute value below `m` |
| Arith.JsMod | five_cycle.js:49-50 | `((x % m) + m) % m` is always in `[0, m)` and equals the mathematical modulus |
| Arith.WrapIsMod | python/five_cycle.py:94-99 | on the values the simulator reduces, one wrap-around step equals both JavaScript's `((x % m) + m) % m` and Python's `x % m` |
| Scheme.NormalizeBlocks | five_cycle.js:2-14 | blocks are non-empty and contain no blank (the space character; a tab inside a token stays, as in `"A\tB C"` → `["A\tB", "C"]`); the result is never one block longer than one letter; with JavaScript white space removed, the blocks together hold exactly the input's text |
| Scheme.FlatNotation | five_cycle.js:10-12 | a single flat token becomes one block per letter, holding its letters in order |
| Scheme.NormalizeBlocksPy | python/five_cycle.py:42-47 | `_normalize_blocks`: the non-empty pieces between single spaces, which together hold exactly the input's non-space characters |
| Scheme.PyHasNoFlatNotation | python/five_cycle.py:45-46 | unlike the JavaScript, a flat token stays one block, because there is no per-letter split |
| Scheme.NormalizeSchemeBlocks | app.js:174-184 | `normalizeSchemeBlocks`: `[]` for empty input; otherwise the white-space runs split apart, a single flat token split per letter, with no character other than white space lost |
| Scheme.Tokens | app.js:176-179 | `trim().split(/\s+/).filter(Boolean)`: non-empty, white-space-free words that together hold the input's non-space characters |
| Scheme.BuildSchemeData | five_cycle.js:16-37 | succeeds iff the blocks are well formed; reports an empty scheme iff there are no blocks, an empty block iff the first block is empty, unequal lengths only when some block differs from the first, and a duplicate only for a letter that occurs twice; on success every letter maps to the one `(pos, slot)` holding it (also `_build_scheme_data`) |
| Scheme.ConsistentIsWellFormed | python/tracer.py:6-19 | the validated scheme data of the tracer's load-time checks describes a well-formed block list |
| Scheme.RecordBlock | five_cycle.js:29-34 | one block's `forEach`: the table extended by that block's letters, or the letter that repeats |
| Scheme.RepeatedNotDistinct | five_cycle.js:30-32 | a letter met twice means the scheme is not made of distinct letters |
| Scheme.FindBlockFrom | five_cycle.js:217 | `findIndex(block.includes(letter))`: the first block containing the letter, or none when no block does |
| Scheme.FindBlockIsHome | five_cycle.js:217 | for a scheme letter, the first block containing it is its home block |
| Scheme.PiecesAfterBuffer | five_cycle.js:110-120 | an error iff the buffer is in no block; an error iff its block is the last one; otherwise exactly the blocks after the buffer's block (also `_pieces_after_buffer`) |
| Scheme.AfterBufferBlocks | five_cycle.js:229-231 | every letter on a block after the buffer's block is not the buffer, and its home block comes after the buffer's block |
| Puzzle.SolvedConfig | five_cycle.js:39-45 | `solvedState`: `pieces[p] == p` and `oris[p] == 0` at every position |
| Puzzle.SolvedIsValid | five_cycle.js:39-45 | the solved state is a permutation with orientations in range |
| Puzzle.LetterAtSlot | five_cycle.js:47-52 | the visible letter is always a scheme letter |
| Puzzle.VisibleSide | five_cycle.js:47-52 | the letter at `(pos, slot)` is `blocks[pieces[pos]][(slot − oris[pos]) mod blockLen]`, both in JavaScript's double-`%` form and as the mathematical modulus (also `_letter_at_slot`, `letter_at_slot`) |
| Puzzle.SolvedShowsBlocks | five_cycle.js:39-52 | in the solved state each slot shows its own block's letter |
| Puzzle.ShownOnce | five_cycle.js:47-52 | no letter is visible at two slots |
| Puzzle.SchemeLetterShown | five_cycle.js:54-64 | every scheme letter is visible somewhere |
| Puzzle.Locate | five_cycle.js:54-64 | `findCurrentSlot`: the first slot in row-major order showing the letter; none only when no slot shows it |
| Puzzle.LocateExact | five_cycle.js:54-64 | the search fails (the source throws) exactly for letters outside the scheme |
| Puzzle.LocateShown | five_cycle.js:54-64 | a letter visible at `(pos, slot)` is found exactly there |
| Puzzle.SwapAt | five_cycle.js:75-80 | writing the swap keeps the state valid, trades the two pieces and leaves every other position alone |
| Puzzle.SwapAtOris | five_cycle.js:73-79 | the new orientations are `(slotA − sideB) mod M` and `(slotB − sideA) mod M` |
| Puzzle.SwapResult | five_cycle.js:66-81 | a defined swap keeps `pieces` a permutation and `oris` in range |
| Puzzle.SwapStickersEffect | five_cycle.js:66-81 | the swap is defined iff both letters are in the scheme, and then it is `SwapAt` of their current slots |
| Puzzle.SwapShowsFirst | python/tracer.py:55-75 | after the swap, A shows at B's former slot |
| Puzzle.SwapShowsSecond | python/tracer.py:55-74 | when the two letters are on different positions, B shows at A's former slot |
| Puzzle.SwapLeavesOthers | five_cycle.js:77-80 | every slot at any other position shows the same letter as before |
| Puzzle.SwapOnOnePiece | five_cycle.js:66-81 | two letters on one piece: the swap is defined, and it shows `y` at `x`'s former slot iff `2(slotX − slotY)` is a multiple of `M` |
| Puzzle.SwapTwiceRestores | five_cycle.js:66-81 | swapping the same two letters twice gives back the state exactly, when they lie on different pieces |
| Puzzle.SwapAtTwice | five_cycle.js:66-81 | swapping back the two slots of a swap on different positions restores both pieces and both orientations |
| Puzzle.ShowsOwnLetter | five_cycle.js:47-52 | a slot shows its own letter only when its position holds its own piece with orientation 0 |
| Puzzle.SwapTwist | five_cycle.js:66-81 | on one piece, B shows at A's slot iff `2(slotA − slotB)` is a multiple of `M`; so the sticker 2-cycle promise fails for most same-piece swaps |
| Puzzle.TwistSides | five_cycle.js:66-81 | on one piece the piece stays put, and A's slot receives B's side iff the slots are twice apart |
| Puzzle.SideLetters | five_cycle.js:16-37 | two sides of one piece show the same letter iff they are the same side |
| Puzzle.ThreeCycleResult | five_cycle.js:83-86 | `threeCycle(a, b, c)` is defined iff all three letters are in the scheme, and it keeps the state valid |
| Puzzle.ThreeCycleEffect | python/tracer.py:80-86 | for letters on three different positions, `b` shows at `a`'s slot, `c` at `b`'s and `a` at `c`'s, and every other position is unchanged |
| Puzzle.ApplyComms | five_cycle.js:173-179 | `applyCommSequence`: defined iff the buffer and every comm letter are in the scheme |
| Puzzle.ApplyCommsCons | five_cycle.js:175-177 | the comms are applied one after the other, each as `threeCycle(buffer, a, b)` |
| Puzzle.ApplyCommsNil | five_cycle.js:173-179 | no comm leaves the state as it is |
| Puzzle.LetterAtHome | five_cycle.js:88-94 | defined (the source does not throw) iff the letter is in the scheme, and then it returns a scheme letter |
| Puzzle.SolvedHomeIsIdentity | five_cycle.js:88-94 | in the solved state `letterAtHome(x) == x` |
| Puzzle.HomeInjective | python/tracer.py:92-98 | `letter_at_home` is a bijection on the letters |
| Puzzle.TraceRest | five_cycle.js:100-106 | each traced letter is `letterAtHome` of the one before; the trace stops at the first buffer or when the steps run out |
| Puzzle.TraceOf | five_cycle.js:96-108 | `traceFromBuffer`: fails iff a step is needed and the buffer is not in the scheme; starts with the buffer; each next entry is the home letter of the previous one; no inner buffer; at most `maxSteps + 1` entries, exactly that many unless it closes on the buffer (also `_trace_from_buffer`, `trace_from_buffer`) |
| Puzzle.OneCommFromSolved | five_cycle.js:173-179 | one comm `(x, y)` on pieces other than the buffer's, applied to solved, maps buffer→x→y→buffer |
| Puzzle.FixedElsewhere | python/tracer.py:92-98 | letters whose pieces a move did not touch are their own home letter |
| Puzzle.TraceOfThreeCycle | python/tracer.py:100-118 | the trace of such a state is exactly `[buffer, x, y, buffer]` |
| Puzzle.SolvedTrace | five_cycle.js:96-108 | from solved, the trace from the buffer is `[buffer, buffer]` |
| Puzzle.ApplyCommsAppend | five_cycle.js:173-179 | applying `xs + ys` is applying `xs` and then `ys` to the result |
| Puzzle.ApplyKeepsSolvedOutside | five_cycle.js:83-86 | comms on the buffer and on pieces of a set leave every position outside that set holding its own piece, untwisted |
| Puzzle.FiveCyclePieces | five_cycle.js:96-108 | five letters that the successor map sends round in a cycle lie on five different pieces, or all on one piece |
| Puzzle.CloseFiveCycle | five_cycle.js:339-342 | for a five-cycle buffer → t1 → t2 → t3 → t4 → buffer on five different pieces, with every other position solved, the comms `(t4, t3)` and `(t2, t1)` give exactly the solved state |
| Puzzle.State.Solved | five_cycle.js:39-45 | a fresh state holding the solved configuration |
| Puzzle.State.FindCurrentSlot | five_cycle.js:54-64 | the nested search loops return `Locate` of the current state |
| Puzzle.State.SearchRow | five_cycle.js:57-61 | the inner loop finds the first slot of one position showing the letter |
| Puzzle.State.SwapStickers | five_cycle.js:66-81 | in place: succeeds iff both letters are in the scheme; the arrays then hold `SwapResult` of the old state, otherwise they are unchanged (also `_swap_stickers`, `swap_stickers`) |
| Puzzle.State.WriteSwap | five_cycle.js:77-80 | the four array writes leave exactly `SwapAt` of the old state |
| Puzzle.State.ThreeCycle | five_cycle.js:83-86 | in place: `swapStickers(b, c)`, then `swapStickers(a, b)`; the result is `ThreeCycleResult` of the old state (also `_three_cycle`, `three_cycle`) |
| Puzzle.State.TraceFromBuffer | five_cycle.js:96-108 | the `while` loop with the step counter computes `TraceOf` of the current state |
| Puzzle.ApplyCommSequence | five_cycle.js:173-179 | a fresh solved state with the comms applied in order, matching `ApplyComms` |
| Composition.Compose | five_cycle.js:66-86 | composing two valid states gives a valid state; each position takes the piece and turn that the second state gives the first's piece |
| Composition.ComposeSolved | five_cycle.js:39-45 | the solved state is the identity on both sides |
| Composition.ComposeAssoc | five_cycle.js:66-86 | composition is associative |
| Composition.ComposeCancel | five_cycle.js:66-86 | from a valid state, the composed state determines the moves |
| Composition.SwapCompose | five_cycle.js:66-81 | `swapStickers(x, y)` from any valid state is its result from solved, composed on the right |
| Composition.SwapAtCompose | five_cycle.js:66-81 | the body of `swapStickers` at the slots of two letters is the solved state's swap of their homes, composed on the right |
| Composition.SwapAtComposeAt | five_cycle.js:66-81 | the same, one position at a time, for two slots showing the letters whose homes are given |
| Composition.ThreeCycleCompose | five_cycle.js:83-86 | `threeCycle` from any valid state is its result from solved, composed on the right |
| Composition.ApplyCommsCompose | five_cycle.js:173-179 | a comm sequence from any valid state is its result from solved, composed on the right |
| Composition.SwappedHalvesReturn | python/five_cycle.py:350-353 | if applying `xs + ys` from solved ends solved, so does applying `ys + xs` |
| Composition.RotationReturns | python/five_cycle.py:350-362 | every rotation of a comm sequence that returns to solved also returns to solved |
| Tracer.ViewLabels | python/tracer.py:36-37 | one label per position, each `blockLen` letters long |
| Tracer.SolvedView | python/tracer.py:22-37 | `view_state_labels(solved_state(n)) == blocks` |
| Tracer.ViewRowIsRotation | python/tracer.py:26-37 | each position's label is its piece's block rotated by `−o mod M` |
| Tracer.CycleDistinct | python/tracer.py:128-139 | a traced cycle repeats no letter before it closes |
| Tracer.CloseCycle | python/tracer.py:128-140 | adding a closed cycle keeps the set of finished letters closed under `letter_at_home` |
| Tracer.FullStickerCycles | python/tracer.py:120-141 | the cycles decompose the letter permutation: each starts and ends with the same letter, follows `letter_at_home` without repeats, is disjoint from the others, and every scheme letter is in one of them |
| Tracer.WalkCycle | python/tracer.py:130-138 | the inner loop returns a closed cycle from `start` through letters not seen before, and removes exactly its letters from `unseen` |
| Tracer.AddCycle | python/tracer.py:139 | appending a fresh cycle keeps the decomposition and its closedness |
| Tracer.DisjointAdd | python/tracer.py:139 | a cycle of unseen letters is disjoint from the earlier ones |
| Tracer.DropCycle | python/tracer.py:135-140 | draining `unseen` shrinks it, which is why the outer loop terminates |
| Tracer.WalkCloses | python/tracer.py:136-137 | returning to `start` closes a cycle |
| Tracer.WalkExtends | python/tracer.py:133-138 | otherwise the walk grows by the next home letter and `unseen` shrinks |
| FiveCycle.LaterPiece | five_cycle.js:229-231 | every piece after the buffer has a sticker other than the buffer, all of whose letters sit after the buffer's block |
| FiveCycle.AvailableDistinct | five_cycle.js:229 | the available pieces are distinct strings |
| FiveCycle.Without | five_cycle.js:144 | the letters of a block other than the buffer |
| FiveCycle.RandomLetter | five_cycle.js:143-149 | succeeds iff the block has a sticker other than the buffer; the letter is from the block and is never the buffer (also `_random_letter`) |
| FiveCycle.RandomLetterReaches | five_cycle.js:143-149 | every non-buffer letter of the block can be drawn |
| FiveCycle.RandomPair | five_cycle.js:151-156 | one letter from each block, neither the buffer, and an error iff a block has none (also `_random_pair`) |
| FiveCycle.NormalizePairJs | five_cycle.js:158-171 | none for an absent or empty pair; a length error iff the trimmed upper-cased string does not have two characters or the list does not have two items; otherwise those two characters or items |
| FiveCycle.PairTextJs | five_cycle.js:166-170 | the string case |
| FiveCycle.PairItemsJs | five_cycle.js:160-165 | the list case: each item trimmed and upper-cased, with no check of their length |
| FiveCycle.NormalizePairPy | python/five_cycle.py:24-40 | none only for `None`; a length error iff the string or list has the wrong length; a letter error iff a list item is not a single character; otherwise the two letters (also `_normalize_forced_pair` in python/comm_drill_trainer.py) |
| FiveCycle.PairTextPy | python/five_cycle.py:27-31 | the string case: Python's `strip().upper()` must leave exactly two characters, even for an empty string |
| FiveCycle.PairItemsPy | python/five_cycle.py:32-39 | the list case: each item stripped and upper-cased to exactly one character |
| FiveCycle.CleanEnds | python/five_cycle.py:28 | a normalised pair text starts and ends with no white space |
| FiveCycle.NormalizePairJsIdempotent | five_cycle.js:158-171 | normalising the normalised pair gives the same pair |
| FiveCycle.NormalizePairPyIdempotent | python/five_cycle.py:24-40 | normalising the pair again, as a string or as two items, gives the same pair |
| FiveCycle.CheckForcedJs | five_cycle.js:218-228 | accepts iff both letters are in the scheme and after the buffer's block; reports the first letter that fails and which check failed |
| FiveCycle.ValidateForcedPairPy | python/five_cycle.py:136-160 | accepts iff the pair normalises and, if present, both letters are after the buffer on two different blocks; equal letters are rejected before anything else; a normalisation error is passed on |
| FiveCycle.Trimmed | five_cycle.js:229-232 | the setup exists iff at least four blocks follow the buffer's; otherwise "no pieces remain" iff the buffer's block is last, else "need four pieces" |
| FiveCycle.SetupJs | five_cycle.js:208-232 | the checks before the first attempt, in the source's order: buffer in the scheme, pair normalisation, forced-letter checks, four pieces after the buffer |
| FiveCycle.SetupPy | python/five_cycle.py:228-239 | the same for Python, with its stricter forced-pair validation; an accepted forced pair lies on two blocks |
| FiveCycle.EqualLettersAcceptedByJsOnly | five_cycle.js:218-228 | a forced pair `XX` after the buffer passes the JavaScript checks but is rejected by `_validate_forced_pair` |
| FiveCycle.AttemptCount | five_cycle.js:234 | `max(1, maxAttempts)`: exactly the requested count when it is at least one, otherwise exactly one attempt |
| FiveCycle.Record | five_cycle.js:246-250 | `recordOrientation` records the comm's letters for its two pieces, each letter in its own piece |
| FiveCycle.Pool | five_cycle.js:257-259 | the available pieces other than the two forced ones, distinct when the input is |
| FiveCycle.PickPieces | five_cycle.js:252-298 | fails iff a forced pair leaves fewer than two other pieces; otherwise four available pieces with two comms, I–J and K–L, and the forced pair as the first or second comm |
| FiveCycle.PickForced | five_cycle.js:253-284 | the forced branch: the forced pieces and two sampled extras, the pair placed first or second by a coin |
| FiveCycle.PlaceForcedGood | five_cycle.js:266-284 | both placements of the forced pair give good picks |
| FiveCycle.PickFree | five_cycle.js:286-297 | without a forced pair: four distinct sampled pieces and two random comms on them |
| FiveCycle.AfterBufferPiece | five_cycle.js:253-256 | a letter after the buffer has its home block among the available pieces |
| FiveCycle.ForcedPiecesDistinct | five_cycle.js:253-268 | the four chosen pieces are distinct whenever the forced letters are on two blocks |
| FiveCycle.ThirdComm | five_cycle.js:300-320 | the third comm lies on pieces J–K or J–L, whether its orientation is random or locked |
| FiveCycle.CommAfterBuffer | five_cycle.js:252-320 | a comm on available pieces uses letters after the buffer only |
| FiveCycle.RunAttempt | five_cycle.js:237-348 | a successful attempt has good picks and three comms whose trace from a solved puzzle is a five-cycle through the buffer |
| FiveCycle.SearchAttempts | five_cycle.js:237-351 | the attempt loop: at most `attempts` passes; success is a good attempt; failure comes after every pass has been used |
| FiveCycle.FiveCycleShape | five_cycle.js:181-189 | `isBufferFiveCycle` holds iff the trace has six entries, starts and ends with the buffer, and its first five are distinct (also `_is_buffer_five_cycle`) |
| FiveCycle.Cleanup | five_cycle.js:339-342 | two cleanup comms; that they close the cycle is `FiveCycle.DrillReturnsToSolved` |
| FiveCycle.SwapPairs | python/five_cycle.py:287 | Python lists the forced pieces first: the same four pieces as a permutation |
| FiveCycle.DrillJsGood | five_cycle.js:339-348 | a drill has five comms, the last two `(trace[4], trace[3])` and `(trace[2], trace[1])`, over four available pieces, with a five-cycle trace and the forced pair first or second |
| FiveCycle.DrillPyGood | python/five_cycle.py:333-343 | the same for Python's piece order |
| FiveCycle.SwapPairsKeepsPieces | python/five_cycle.py:287 | listing the pieces in Python's order keeps every drill guarantee |
| FiveCycle.DrillReturnsToSolved | five_cycle.js:325-347 | the five comms of a good drill, applied from solved, give exactly the solved state, and the trace from the buffer is then `[buffer, buffer]` (for pieces of at most four stickers) |
| FiveCycle.CycleFillsMoved | five_cycle.js:325-333 | after the first three comms, the five letters of the five-cycle lie on five different pieces, and every other position is solved |
| FiveCycle.ForcedPairIncluded | five_cycle.js:252-284 | a forced pair is one of the drill's comms |
| FiveCycle.RandomShiftComms | five_cycle.js:191-197 | the result is a rotation of the comms, with the same elements; `[]` for `[]` (also `random_shift_comms`) |
| FiveCycle.RandomShiftReaches | five_cycle.js:194-196 | every rotation offset below the length can occur |
| FiveCycle.SearchJs | five_cycle.js:237-351 | an attempt loop that returns a good drill of the JavaScript shape, or fails after all attempts |
| FiveCycle.SearchPy | python/five_cycle.py:244-347 | the same for Python, corrected at line 310 |
| FiveCycle.BasicFiveCycle | five_cycle.js:199-352 | a missing buffer is the first error; a bad scheme gives a scheme error; the first attempt starts only after setup succeeds; at most `max(1, maxAttempts)` attempts, all used before "failed"; a returned drill is good |
| FiveCycle.GenerateFiveCycle | five_cycle.js:354-363 | the result of `basicFiveCycle` with only the comm order rotated; the forced pair stays in it; the rotated comms return to solved whenever the basic drill's do, and always for pieces of at most four stickers |
| FiveCycle.BasicFiveCyclePy | python/five_cycle.py:193-347 | `basic_five_cycle` with the third comm's orientation as a parameter: the same bounds and error order as the JavaScript, with Python's setup |
| FiveCycle.GenerateFiveCyclePy | python/five_cycle.py:369-377 | `generate_five_cycle`: a bad scheme is a scheme error; a result has four pieces, five comms and a five-cycle trace through the buffer; pieces and trace are those of the basic drill, its comms rotated with a separate random source, the forced pair still among them; the rotated comms return to solved whenever the basic drill's do, and always for pieces of at most four stickers |
| FiveCycle.AsWrittenNeverSucceeds | python/five_cycle.py:303-311 | as written, every attempt that reaches line 310 raises `NameError`; otherwise it fails; no attempt can succeed |
| Chain.FirstIncluding | web/chain.js:33-38 | the first block from `from` that contains the buffer, with no earlier one containing it |
| Chain.TrimPoint | web/chain.js:31-39 | zero iff the buffer is empty or in no block; otherwise one past the first block holding it |
| Chain.FindTrimStart | web/chain.js:31-39 | the loop with `break` computes `TrimPoint` |
| Chain.Letters | web/chain.js:50 | a block's letters other than the buffer |
| Chain.UsableBlocks | web/chain.js:49-55 | exactly the blocks that keep a letter once the buffer is removed |
| Chain.LettersOf | web/chain.js:53 | one template per kept block, its letters without the buffer |
| Chain.SelectBlocks | web/chain.js:46-55 | the loop computes the kept blocks and their templates |
| Chain.LastBlockIsLast | web/chain.js:65-71 | the index of a letter is the last kept block holding it, and there is none iff no kept block holds it |
| Chain.LetterIndex | web/chain.js:65-71 | the nested `forEach` builds exactly that map (also `letter_to_block_idx`) |
| Chain.TotalPositive | web/chain.js:73-79 | the second "no usable letters" check never fires, because every kept block has a letter |
| Chain.TotalPop | web/chain.js:103-106 | popping one letter lowers the remaining count by exactly one |
| Chain.TotalZero | web/chain.js:90 | nothing remaining means every working list is empty |
| Chain.CoversRotation | web/chain.js:122 | rotating a pass keeps the letters it took from each block |
| Chain.CoveredEntry | web/chain.js:185 | each entry of a pass is a letter of its block's template |
| Chain.Candidates | web/chain.js:91-96 | the blocks with letters left, other than the last one used |
| Chain.ShuffledCopies | web/chain.js:85 | each block's letters shuffled: same multiset, same length |
| Chain.PopStep | web/chain.js:102-106 | one pop keeps the walk's invariant: the letters taken plus those left are each template, and consecutive entries differ in block |
| Chain.AppendSpaced | web/chain.js:104-105 | appending from a block other than the last keeps consecutive entries on different blocks |
| Chain.WalkDone | web/chain.js:109 | a walk with nothing left used every letter exactly once, with no block twice in a row |
| Chain.PopOne | web/chain.js:90-107 | one pass of the inner `while`: the invariant is kept, and `remaining` drops unless no candidate is left |
| Chain.Walk | web/chain.js:85-111 | a completed walk covers every template letter once and never repeats a block consecutively |
| Chain.FirstFit | web/chain.js:121-127 | the first shifted rotation whose ends differ in block (and avoid the previous block), or none iff no shift fits |
| Chain.ShuffledRange | web/chain.js:114-118 | the shifts `lo` to `hi − 1` in some order |
| Chain.RepairEnds | web/chain.js:113-131 | a rotation by `1..len−2` whose ends lie on different blocks, or none iff no such shift exists |
| Chain.BuildCycle | web/chain.js:83-138 | `buildCycle`: a returned pass covers every letter once, is a rotation of a spaced walk, and has its ends on different blocks |
| Chain.RepairJoinsEnds | web/chain.js:113-133 | the repair rotation puts the walk's two same-block ends next to each other, so the repaired pass is never spaced |
| Chain.RotateForPrevious | web/chain.js:140-161 | unchanged without a previous block; a one-entry pass is rejected iff its block is the previous one; otherwise a rotation that starts off the previous block with ends on different blocks, or none iff no rotation fits |
| Chain.PlaceOne | web/chain.js:187-193 | appending a letter from a block other than the previous keeps the chain placed |
| Chain.SequenceContainsPair | python/comm_drill_trainer.py:37-45 | true iff some `s[i]`, `s[(i+1) mod n]` is the pair; false below two letters |
| Chain.AppendCycle | web/chain.js:185-194 | copying a pass stops at `count` or at a repeated block; letters added equal the drop in `remaining` |
| Chain.NextCycle | web/chain.js:170-178 | a pass that covers the templates and starts off the previous block |
| Chain.FillChain | web/chain.js:169-197 | the `while (remaining > 0)` loop: without failure exactly `count` letters, every letter placed on its block, neighbours on different blocks |
| Chain.ChainLetters | web/chain.js:163-216 | the outer attempt loop: a returned chain has `count` letters, neighbours and ends on different blocks, and contains the forced pair when there is one |
| Chain.Prepare | web/chain.js:22-81 | the setup errors in order: nothing after the trim iff the trim point reaches the end of the block list (the buffer's first block is the last one, or there are no blocks at all), no usable letters iff no kept block has a letter, too few blocks iff `count > 1` with one kept block; on success the kept blocks, templates and letter index |
| Chain.GeneratePieceLetters | web/chain.js:14-219 | negative count iff `count < 0`; `[]` for zero; for `count > 0`, each setup error iff its condition on the normalised blocks (nothing after the trim, no usable letters, too few blocks when `count > 1`), as for `Chain.Prepare`; otherwise a spacing failure or `count` letters, neighbours and ends on different blocks (also `generate_piece_letters` without a pair) |
| Chain.CheckPair | python/comm_drill_trainer.py:106-117 | no error iff the letters differ, both survive the trim and lie on different blocks; equal letters are reported first; the missing list is exactly the absent letters |
| Chain.GeneratePieceLettersPy | python/comm_drill_trainer.py:48-228 | a pair that does not normalise, or a pair with `count < 2`, fails first; past those checks, each setup error iff its condition on the blocks split at single blanks, as in the JavaScript; a returned chain contains the pair cyclically |
| Chain.PairedChain | python/comm_drill_trainer.py:106-226 | pair errors come before any attempt; a returned chain is well spaced and contains the pair |
| App.FirstLetters | app.js:129-141 | distinct letters, exactly the `A`–`Z` letters of the text |
| App.FirstLettersPrefix | app.js:134-139 | the letters of a prefix came first, so later text only appends |
| App.UniqueLettersFromSchemeText | app.js:129-141 | the loop with its `seen` set returns the upper-cased text's letters in first-occurrence order; `[]` for empty text |
| App.ChooseBuffer | app.js:155-163 | `''` iff the scheme has no letters; otherwise a scheme letter: the preferred (or stored) letter whenever the scheme offers it, else the preset's buffer when the scheme offers that, else the first letter |
| App.ChooseBufferStable | app.js:155-166 | choosing again with the chosen buffer as the preference keeps it |
| App.LastHolding | app.js:199-206 | the last block holding a letter, or none iff no block holds it |
| App.BuildLetterMeta | app.js:186-208 | empty-scheme error iff no blocks; missing-buffer error iff no block holds it; nothing-after error iff the buffer's block is last; otherwise every letter records its last block, usable iff that block is after the buffer's |
| App.TokenError | app.js:220-246 | no error iff the token is two distinct scheme letters, both usable and on different blocks; the buffer-piece error can never be reported |
| App.AllPairsLayout | app.js:247-250 | one pair per token, or the pair then its inverse, in token order |
| App.ParseRequiredPairs | app.js:210-253 | `[]` for no tokens; a letter-table error when the scheme is unusable; otherwise success iff every token is acceptable, with the pairs built from the tokens, and failure reports the first bad token; the buffer-piece check at lines 241-246 never fires |
| App.CheckTokens | app.js:219-251 | the token loop: success iff every token passes, the first failing token's error otherwise |
| App.AcceptedPairPlacement | app.js:235-240 | an accepted pair's letters sit on two different blocks after the buffer's |
| App.FindAdjacent | app.js:259-263 | the first index where the pair occurs cyclically, or none iff it never does |
| App.DropLetters | app.js:276 | the letters other than the pair's, in order |
| App.EnsureChainPair | app.js:255-279 | unchanged without a pair or below two letters; otherwise never longer than the input and starting with the pair |
| App.RotateAtPair | app.js:264-266 | rotating to the pair's index puts it at the start |
| App.DropAdjacentNone | app.js:268-275 | with no cyclic occurrence, the first filter removes nothing |
| App.EnsureRotates | app.js:259-266 | when the pair occurs, the result is a rotation of the chain with the same length; it is exactly the rotation at the first index where the pair occurs cyclically |
| App.EnsureSplices | app.js:267-278 | otherwise it is `[pair[0], pair[1]]` then the other letters in order, cut to the input length |
| App.EnsureIdempotent | app.js:255-279 | post-processing twice gives the same chain as once |

## Left out

- DOM, storage, theme and event wiring in app.js: these are UI and I/O. The menu filling around the buffer-choice rule, and `parseRequiredPairs`'s read of the input element, are modelled only as their string arguments. The `if (!requiredPairsInput)` guard is left out for the same reason.
- Floating-point randomness (`Math.floor(rngFn() * n)`, `rng.random() < 0.5`) is replaced by integer draws from `Oracle.Rng`. No distribution property is claimed.
- Python's default scheme when `scheme` is `None`, a scheme passed as a list, and the `isinstance`/`TypeError`/`String(...)` coercion paths: only strings, two-item lists of strings and an absent pair are modelled.
- Text.Upper: upper-cases ASCII `a`–`z` only. JavaScript's `toUpperCase` and Python's `upper` also map other characters (for example `ı` to `I` and `ſ` to `S`).
- String lengths are counted in `char`s, not in UTF-16 code units or Python code points.
- FiveCycle.AttemptCount: covers integer attempt counts only. A fractional `maxAttempts` becomes `max(1, floor(x))` in JavaScript and `max(1, int(x))` in Python; `int` truncates toward zero.
- FiveCycle.ValidateForcedPairPy: when both forced letters are missing, Python's error lists both; the model reports only the first.
- FiveCycle.DrillReturnsToSolved: proved only for blocks of at most four stickers, which covers edges and corners. With five or more stickers a piece can cycle its own stickers. The proof then does not exclude a five-cycle that stays on the buffer's own piece, for which the cleanup comms are not shown to solve. The same limit carries over to the rotated drills of `FiveCycle.GenerateFiveCycle` and `FiveCycle.GenerateFiveCyclePy`. For larger pieces they are proved to return to solved only when the basic drill does.
- FiveCycle.BasicFiveCycle: does not claim that the comms never repeat a comm or contain one and its inverse. The Python tests assert this of a real cube's algorithm tables, and those are not part of this model.
- Error messages: each error is a constructor naming its cause, without the source's text. The `lastError` trace in the "failed" message is not kept.
- The `print` to standard error, the `globals()["5cycle"]` alias and the `__main__` demos in python/five_cycle.py.
- `generate_wings`, `generate_edges`, `generate_centers`, `generate_corners` and `display` in python/comm_drill_trainer.py. They only call `generate_piece_letters` with fixed schemes, or print.
- tests/test_five_cycle.py is not part of this model. It drives a real-cube tracer and algorithm tables that are not part of this repository's core.
- Puzzle.SwapTwiceRestores: covers letters on different pieces only. For two stickers of one piece, the first swap turns only that piece, and `Puzzle.SwapTwist` shows the promised exchange then fails unless `2(slotA − slotB)` is a multiple of the block length. So swapping twice is not claimed to restore the state there.
- Puzzle.State.SwapStickers: the source throws when a letter is not found, after nothing has been written. The model returns `false` and leaves the arrays unchanged, which is the same state.
- Concurrency is absent from the source. Integer overflow is absent too: every number is a small index.

## Findings

| source | as written | input that shows it | evidently intended | confidence | as-written member | corrected member |
|---|---|---|---|---|---|---|
| python/five_cycle.py:310 | `if randomize_third_orientation:` reads a name that is defined nowhere in the module or the function's parameters, so every attempt that reaches it raises `NameError` | any valid call, e.g. the default corner scheme with buffer `U` and no forced pair | a `randomize_orientation` parameter as in five_cycle.js:206 and :309, choosing between a random third comm and the locked orientations | high, not executed | FiveCycle.AsWrittenNeverSucceeds | FiveCycle.BasicFiveCyclePy |
