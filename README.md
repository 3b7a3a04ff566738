# Snake: the move step and the board generator

This project models the game logic of a browser Snake game, all of it in `src/App.js`:

- **One tick of the snake.** `moveSnake` moves the head one cell, wrapping around the board. It ends the round on a wall, an obstacle or the snake's own body. Otherwise the snake grows by one cell and the score goes up by one.
- **Steering.** The key handler turns the snake unless the key asks for a reversal.
- **The empty-cell count** behind the fill percentage.
- **The board generator** `generateBoardMap`. It works on a height × width board of cells: 0 is empty, 1 is a wall, 2 is an obstacle. It runs three passes in order:
  1. One of four border styles: a gapped border, a circular arena, maze segments or blobs.
  2. The gap guarantee `ensureGaps`, which opens a midpoint gap on any closed edge and, on the circular arena, clears corridors next to each edge gap.
  3. The obstacle pass `addObstacles`, driven by a fixed linear congruential generator.
- **The style names and the per-style high-score merge.**

The board is an `array2<int>` indexed `board[y, x]`, filled in place by methods with loops. Each method that changes the board is proved against a function that gives the exact new value of every cell: the border styles (`BoardGen.Bordered`), the gap guarantee (`Gaps.Gapped`), the obstacle pass (`Obstacles.ObstacleCells`) and the whole generator (`BoardGen.AsWritten`). The properties of the passes are then lemmas about those functions. Where the source makes random draws, the draws are parameters, so every contract holds for every draw:

- the gapped border takes one flag per column and one per row;
- the maze takes one segment per anchor;
- the blobs style takes a sequence of blobs, each with the set of offsets its random disk test admitted.

The obstacle pass draws nothing at random; it is proved equal to a pure function `ObstacleCells` of the style and of the board before the pass.

Modules:

- `Grid`: positions, cell values, edge predicates.
- `Movement`: steering, the step, spawning, counting.
- `Borders`: the four styles.
- `Gaps`: the gap guarantee.
- `Obstacles`: the obstacle pass.
- `BoardGen`: the whole generator.
- `Scores`: names and the high-score merge.

Floating-point tests of the source are restated exactly on integers:

- the ellipse test is `dx²·ry² + dy²·rx² > rx²·ry²`;
- the distance test is `dx² + dy² > 36`;
- a pseudo-random offset is `start + k·span div 233280`, with `k = (n·9301 + 49297) mod 233280`;
- the densities are per mille, as in `w·h·25 div 1000`, and the 80% test is `5·placed < 4·count`.

These restatements agree with the double-precision results for the 40 × 25 board the game uses (`src/App.js:358-359`). For other sizes they are the exact-arithmetic reading of the code. When a semi-axis of the arena is 0, the model keeps the floating-point outcome: 0/0 is NaN, which is never greater than 1, and d/0 is infinite.

Notes on the code:

- The obstacle pass skips the four central sectors: sX in {3, 4} and sY in {1, 2}.
- The gap guarantee runs before the obstacle pass (lines 945-952). See Findings.
- The gapped border mirrors the top and bottom rows only for 0 < x < width − 1. The left/right pass sets the corner cells, so there row 0 and row height − 1 follow different side draws.
- The obstacle pass sets no floor on the number of obstacles placed. The top-up pass makes exactly `count − placed` attempts, and some of them may be rejected.
- Each key press is checked against the direction the previous press set (lines 481-496), so `Movement.Tick` steers with `SteerKeys`; `Movement.TickPending` is the tick with the corrected steering `SteerPending`. See Findings.

## Model

The contracts below are stated in terms of definitions that have no contract of their own; each is the code's rule for one cell, board or set, on the lines cited in its doc comment:

- cell rules: `Borders.GappedCell` (lines 591-631), `Borders.OutsideArena` (633-648), `Borders.MazeWall` (650-675), `Borders.BlobWall` (677-732), `Gaps.MidGapCell` (763-784), `Gaps.RowCorridorCell` (790-817), `Gaps.ColumnCorridorCell` (820-844);
- board values: `Gaps.MidGapped`, `Gaps.RowsCleared`, `Gaps.ColumnsCleared`, `Gaps.Corridors`, `Gaps.Gapped` (745-846), `BoardGen.Bordered`, `BoardGen.BlobBoard` (589-742), `BoardGen.BeforeObstacles` (583-949), `BoardGen.AsWritten` (581-955), `BoardGen.Generated` (the corrected generator);
- the obstacle pass: `Obstacles.SectorCandidate` (892-895 and 907-912), `Obstacles.TopUpCandidate` (930-932), `Obstacles.ObstacleCells` (849-943).

The lemmas and methods of the table are what is proved about them.


| member | source | states |
|---|---|---|
| Grid.StyleIndex | src/App.js:586 | the style is one of the four indices 0 to 3 |
| Movement.Opposite | src/App.js:481-496 | the reverse of a direction is a different direction |
| Movement.Steer | src/App.js:481-496 | the requested direction is taken exactly when it is not the reverse of the current one; otherwise the current direction stays; the result never reverses the current direction |
| Movement.WrapIsMod | src/App.js:441-445 | after a move of one cell, from -1 to the board size, the two wrap tests give the coordinate modulo the board size |
| Movement.NextHead | src/App.js:424-445 | from a head on the board the new head is on the board and equals the head plus the direction's delta, taken modulo width and height |
| Movement.WrapAtEdges | src/App.js:442-445 | right from the last column gives column 0, left from column 0 the last column, and likewise for rows |
| Movement.Step | src/App.js:418-473 | game over exactly when the new head is a wall, an obstacle or a segment, with snake and score unchanged; otherwise the snake is the new head followed by the old snake, one longer, and the score is one more; distinct segments on empty cells stay so |
| Movement.Spawn | src/App.js:381-392 | the starting snake is one segment on an empty cell, the centre whenever the centre is empty |
| Movement.CountEmpty | src/App.js:405-412 | the loop's count is the number of empty cells of the board |
| Movement.FillAtMostFull | src/App.js:405-413 | a snake on distinct empty cells is no longer than the number of empty cells, so the fill percentage is at most 100 |
| Movement.SteerKeys | src/App.js:481-496 | the direction after several presses is the starting direction or one of the presses |
| Movement.SteerKeysLast | src/App.js:481-496 | each press is judged against the direction the earlier presses left, not the direction of the last move |
| Movement.TwoPressesReverse | src/App.js:481-496 | moving right, the presses up then left within one tick give left, the reverse |
| Movement.SteerPendingLast | src/App.js:481-496 | corrected: a last press that reverses the last move is rejected, and the direction the earlier presses left stays |
| Movement.SteerPending | src/App.js:481-496 | presses judged against the last move never reverse it; the result is a press or the pending direction, and it is the last press unless that press is a reversal |
| Movement.Tick | src/App.js:418-496 | as written: the direction of a tick is the previous move or a press; it never reverses the direction the earlier presses left; it is the last press unless that press reverses that direction, and then it is that direction; the outcome is Step's for that direction |
| Movement.TickPending | src/App.js:418-496 | corrected: the direction of a tick never reverses the previous move, is the previous move or a press, and is the last press unless that press reverses the previous move, in which case the earlier presses' direction stays; the outcome is Step's for that direction |
| Borders.GappedBorder | src/App.js:591-631 | every cell gets its gapped-border value; left and right columns match on every row, empty exactly at a side gap; top and bottom rows match for 0 < x < width − 1, empty exactly at a top gap; the interior is untouched |
| Borders.ArenaCentreOpen | src/App.js:633-648 | the centre of the arena is never outside the ellipse |
| Borders.CircularArena | src/App.js:633-648 | a cell becomes a wall exactly when it lies strictly outside the ellipse; every other cell keeps its value |
| Borders.PlaceSegment | src/App.js:664-671 | exactly the on-board cells of the segment's run become walls, clipped at the right and bottom edges; every other cell keeps its value |
| Borders.MazeSegments | src/App.js:650-675 | a cell becomes a wall exactly when it is covered by the segment of an anchor whose coordinates are multiples of 8, unless that segment would run along an outer row or column; every other cell keeps its value |
| Borders.MazePassages | src/App.js:650-675 | every maze wall lies among the first five cells of an 8-cell block of an anchor row or an anchor column, so the last three cells of each block stay open |
| Borders.StampedWithinRadius | src/App.js:696-713 | every cell a blob marks lies strictly within that blob's radius of its centre |
| Borders.MarkCell | src/App.js:703-711 | the cell becomes a wall and is recorded in the set of each edge it lies on |
| Borders.StampOffset | src/App.js:697-712 | an admitted offset that lands on the board walls its cell and records edge cells; nothing else changes |
| Borders.StampRow | src/App.js:697-713 | one row of a blob's square: exactly its admitted on-board cells become walls, and the edge sets grow by its edge cells |
| Borders.StampBlob | src/App.js:696-714 | exactly the cells a blob covers become walls, and the edge sets grow by exactly its edge cells |
| Borders.Blobs | src/App.js:677-732 | a cell becomes a wall exactly when a blob marks it or it lies on an edge opposite a marked edge cell; a top/bottom or left/right pair that matched before still matches |
| Gaps.FindGaps | src/App.js:746-760 | each flag is true exactly when its edge has an empty cell |
| Gaps.OpenMidGaps | src/App.js:763-784 | the midpoints of the top and bottom rows are emptied when either row had no gap, those of the side columns when either column had none; nothing else changes |
| Gaps.ClearRowSpan | src/App.js:791-800 | the on-board cells of the span in that row become empty; nothing else changes |
| Gaps.ClearColumnSpan | src/App.js:822-842 | the on-board cells of the span in that column become empty; nothing else changes |
| Gaps.ClearLeftCorridors | src/App.js:790-802 | each row with a left gap has columns 1 to 3 and its last four columns emptied; nothing else changes |
| Gaps.ClearRightCorridors | src/App.js:805-817 | each row with a right gap has the three cells before the last column and its first three columns emptied; nothing else changes |
| Gaps.ClearColumnCorridors | src/App.js:820-844 | each column with a top gap has rows 1 to 3 and its last four rows emptied, and a column with a bottom gap, found before or created by that clearing, has the three rows above the last and its first three rows emptied |
| Gaps.ClearRowCorridors | src/App.js:790-817 | every cell holds its value after the left and the right pass, as computed from the board before them: emptied exactly in the corridor columns of a row with a gap at either end |
| Gaps.ClearCorridors | src/App.js:788-845 | every cell holds its value after the three corridor passes, as computed from the board before them |
| Gaps.CorridorsNearEdges | src/App.js:788-845 | the corridor passes change no cell more than four cells in from an edge |
| Gaps.CorridorRows | src/App.js:790-817 | a row with an empty cell at either end ends with its first three and last four cells empty |
| Gaps.CorridorColumns | src/App.js:820-844 | a column with an empty cell at either end after the passes has its first three and last four cells empty |
| Gaps.GappedMidRule | src/App.js:745-786 | off the circular arena the gap guarantee empties exactly the midpoint cells of the midpoint rule and keeps every other cell |
| Gaps.MidGappedCell | src/App.js:763-784 | after the midpoint rule a cell is empty when it is a midpoint of a pair of edges one of which was closed, and keeps its value otherwise |
| Gaps.MidGappedRowsOpen | src/App.js:763-774 | after the midpoint rule the top and the bottom rows each have an empty cell |
| Gaps.MidGappedColumnsOpen | src/App.js:764-784 | after the midpoint rule the left and the right columns each have an empty cell |
| Gaps.MidGappedEdgesOpen | src/App.js:746-784 | after the midpoint rule every edge has an empty cell, whatever the board |
| Gaps.ClearingKeepsEdgesOpen | src/App.js:788-845 | clearing cells never closes an open edge |
| Gaps.GappedEdgesOpen | src/App.js:745-846 | for every board and style, every edge is open after the gap guarantee |
| Gaps.GappedKeepsOpenBoard | src/App.js:763-784 | off the circular arena a board whose four edges are all open is left unchanged |
| Gaps.GappedNearEdges | src/App.js:745-846 | the gap guarantee changes no cell more than four cells in from an edge |
| Gaps.RowSnapshotOpen | src/App.js:746-760 | the in-place row test and the value view of the row agree |
| Gaps.ColumnSnapshotOpen | src/App.js:746-760 | the in-place column test and the value view of the column agree |
| Gaps.BoardEdgesOpen | src/App.js:746-760 | a board holding a value whose edges are all open has every edge open |
| Gaps.GappedBoard | src/App.js:745-846 | a board holding the gap guarantee's value of a board has every edge open, holds only that board's cells or empty cells, and differs from it only near the edges |
| Gaps.ApplyMidGaps | src/App.js:746-784 | every cell holds its value under the midpoint rule, as computed from the board before it |
| Gaps.EnsureGaps | src/App.js:745-846 | every cell holds its value under the gap guarantee for the style, as computed from the board before it; every edge ends with an empty cell, cells only ever become empty, and no cell more than four in from an edge changes |
| Obstacles.Lcg | src/App.js:853-855 | the generator's value, kept as its numerator over 233280, lies in [0, 1) |
| Obstacles.DensityPerMille | src/App.js:858-874 | the density of every style lies between 1.5% and 3.5% |
| Obstacles.PlanFor | src/App.js:852-883 | the seed is the style index times 1000, the count is the density share of the area rounded down, and the attempts per sector are the count over 40 rounded up |
| Obstacles.OffsetInSpan | src/App.js:907-912 | a pseudo-random offset stays inside a span of at least one cell |
| Obstacles.CandidateInSector | src/App.js:892-912 | on a board at least 8 × 5, every sector candidate lies inside its own sector |
| Obstacles.CandidateAwayFromCentre | src/App.js:897-912 | the candidate of a sector that is not skipped lies outside the four central sectors |
| Obstacles.ObstaclesSafe | src/App.js:915-919 | every obstacle lands on a cell of the board that was empty before the pass and is more than 6 cells from the centre |
| Obstacles.ObstacleCountBound | src/App.js:876-942 | at most the target count of obstacles is placed, top-up included |
| Obstacles.SectorPhaseAvoidsCentre | src/App.js:897-900 | on a board at least 8 × 5 the sector pass places nothing in the four central sectors |
| Obstacles.SectorPhaseKept | src/App.js:928-942 | the top-up pass keeps every sector-pass obstacle |
| Obstacles.TopEdgeCellTaken | src/App.js:889-924 | on the 40 × 25 gapped board, cell (5, 0) becomes an obstacle whenever it is empty before the pass |
| Obstacles.AcceptsOnBoard | src/App.js:919 | with the cells placed so far, the board test of a candidate is the acceptance test on the pre-pass board |
| Obstacles.FillSector | src/App.js:903-923 | the attempts of one sector place exactly the cells the sector pass defines, stopping at the target count |
| Obstacles.FillSectorRow | src/App.js:890-924 | one row of sectors places exactly the cells the pass defines, skipping the central sectors |
| Obstacles.FillSectors | src/App.js:889-925 | the sector loops place exactly the cells and the count the sector pass defines |
| Obstacles.FillTopUp | src/App.js:928-942 | the top-up loop places exactly the cells the top-up pass defines |
| Obstacles.AddObstacles | src/App.js:849-943 | a cell becomes an obstacle exactly when it is in the obstacle set computed from the style and the pre-pass board; every other cell keeps its value |
| BoardGen.MakeBorders | src/App.js:589-742 | every cell holds its value under the border style of the draws: the gapped border, the arena, the maze or the blobs followed by the gap guarantee; no obstacle yet |
| BoardGen.BordersAndGaps | src/App.js:945-949 | from the empty board, every cell holds its value under the border style and then the gap guarantee; no obstacle yet and every edge open |
| BoardGen.EmptyArray | src/App.js:583 | a fresh board of the given size with every cell empty |
| BoardGen.BorderedBoard | src/App.js:583 | a fresh board of the given size that holds the board the obstacle pass starts from, walls and empty cells only |
| BoardGen.BeforeObstaclesOpen | src/App.js:945-949 | every edge of the board the obstacle pass starts from is open, for every style and every draw |
| BoardGen.GappedDrawsKept | src/App.js:591-631 | a gapped border with a top gap off the corners and a side gap goes through the gap guarantee unchanged |
| BoardGen.AsWrittenBoard | src/App.js:849-943 | the board left by the obstacle pass is the generator's value as written, holds valid cells only and every obstacle is more than 6 cells from the centre |
| BoardGen.PassBoard | src/App.js:849-943 | after the obstacle pass a walls-only board holds itself with exactly the obstacle set added, its cells are valid and every obstacle is more than 6 cells from the centre |
| BoardGen.GenerateAsWritten | src/App.js:581-955 | a fresh board holding the generator's value as written, the pre-obstacle board with exactly the obstacle set added; all cells valid; every obstacle more than 6 cells from the centre |
| BoardGen.ObstaclesOnWallsOnly | src/App.js:849-943 | a walls-only board plus safe obstacle cells holds valid cells only, each obstacle away from the centre |
| BoardGen.SingleTopGap | src/App.js:597-631 | with a single top gap at column 5 and no side gap on row 0, only (5, 0) of the top row is empty |
| BoardGen.SingleGapTopRow | src/App.js:591-631 | for the single-gap draws of the 40 × 25 gapped board, the top row of the board the obstacle pass starts from is empty at column 5 only |
| BoardGen.TopEdgeClosedAsWritten | src/App.js:945-952 | for the single-gap draws of the 40 × 25 gapped board, the board as written has no empty cell on its top edge |
| BoardGen.Regap | src/App.js:949 | the gap guarantee run again on the board as written gives the corrected generator's value: every edge open, cells only cleared, cells valid and obstacles away from the centre |
| BoardGen.Generate | src/App.js:581-955 | corrected: every cell holds the value of the board as written after the gap guarantee once more, so it equals the board as written or is empty; every edge has an empty cell, all cells valid, every obstacle more than 6 cells from the centre |
| Scores.StyleName | src/App.js:570-578 | the index of a style gives its name, anything else gives 'Standard' |
| Scores.StyleNamesDistinct | src/App.js:570-578 | the four styles have four different names, none of them 'Standard' |
| Scores.MergeScore | src/App.js:81-100 | the style gets an entry; its stored score becomes the larger of the old one (0 when missing) and the new one; the flag is set exactly when the new score beats the old one; other styles are untouched |
| Scores.MergeIdempotent | src/App.js:81-100 | recording the same game twice changes nothing the second time and reports no record |
| Scores.MergeMonotone | src/App.js:81-100 | no stored score ever goes down |
| Scores.MergeAllBest | src/App.js:81-100 | after a series of games every style played holds at least each of its scores |
| Scores.MergeAllKeeps | src/App.js:81-100 | a stored score survives any series of later games |

## Left out

- The React components, the title and game-over screens and the board rendering: these are presentation.
- `localStorage`, the audio element and mute handling: these are browser I/O.
- `setInterval`, key listeners, pausing and React state scheduling. These are the event loop. A tick is modelled as a call with the key presses that arrived since the previous tick.
- `Math.random`: its draws are parameters of the style methods. The style choice (line 586) is the constructor of `StyleDraws`, and the blob count (line 679) is the length of the blob sequence.
- `generateRandomPosition` (lines 369-378) is an unbounded retry loop. `Movement.Spawn` takes the empty cell it would find as a parameter.
- The fill percentage as a float, its `toFixed(2)` string, and the fill comparison of the high-score merge: these are floating-point values and strings. MergeScore: its flag covers the score comparison only, not a fill-percentage record.
- The blob disk test `sqrt(x² + y²) <= size · random` (lines 698-699). A blob's admitted offsets are a parameter. `BlobDrawn` states only that the centre is admitted and every admitted offset is strictly inside the radius.
- The blob centres and sizes are taken as given. The margin of 3 cells that keeps the centres off the edges is not modelled; only the size range is kept, as the type `BlobSize` (3 to 7).
- The `default` branches of the style switches: the style is always one of the four indices.
- Obstacles.Lcg: its argument is a natural number. Every seed the source passes is non-negative, and the truncating remainder of JavaScript agrees with Dafny's remainder there.
- A floor of 80% of the target obstacle count: the top-up pass (lines 927-942) does not guarantee one, so the model states only the upper bound `Obstacles.ObstacleCountBound`.
- The floating-point sector bounds and offsets are stated exactly on integers. Their agreement with the doubles is claimed for the 40 × 25 board only.

## Findings

| source | as written | input that shows it | evidently intended | confidence | as-written member | corrected member |
|---|---|---|---|---|---|---|
| src/App.js:481-496 | each key press is checked against the direction the previous press set, so two presses between two ticks can reverse the snake | moving right, press up and then left before the next tick: the snake moves left into its own neck | a reversal of the direction of the last move is rejected, however many keys arrive within one tick | not executed | Movement.TwoPressesReverse | Movement.SteerPending |
| src/App.js:945-952 | the obstacles are added after the gap guarantee and may fill the only gap of an edge | 40 × 25 gapped border with a single top gap at column 5 and a single side gap at row 12: the sector (1, 0) candidate is (5, 0), which becomes an obstacle, so the top edge has no empty cell | every edge of the finished board has an empty cell, as the comment on line 948 says | not executed | BoardGen.TopEdgeClosedAsWritten | BoardGen.Generate |
