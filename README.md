# Langton's ant, modelled in Dafny

This project models the core of a small Go program that simulates Langton's
ant. A grid of black and white cells starts all white, with the ant on the
middle cell facing up. On each iteration the ant:

- reads the colour under it;
- turns right on white and left on black, using a fixed turn table;
- moves one cell;
- grows the grid by one white row or column if it stepped off an edge;
- flips the cell at the coordinates it left.

After the configured number of iterations the grid is rendered as text: "1 "
for a black cell, "0 " for a white one, and a newline after each row.

Modules, leaves first:

- `Directions` (`directions.dfy`) holds:
  - the four facings and the four grid displacements;
  - the eight-entry turn table `Lookup`, whose entries are proved to be
    exactly the geometric quarter turns;
  - the display names of the facings.
- `Ants` (`ant.dfy`) holds the ant:
  - a class `Ant` whose `Move` updates the row, column and facing in place;
  - the value-level `Moved` that specifies `Move`.
- `Grids` (`grid.dfy`) holds:
  - the grid as a sequence of rows;
  - the four edge extensions, each as a function that says what the new grid
    is and as a method that builds it row by row;
  - the flip of one cell;
  - the initial square grid.
- `Rendering` (`render.dfy`) holds:
  - the text form `Text`, defined cell by cell and line by line;
  - the nested loop `Render` that writes it;
  - `TextCell`, which locates every cell and newline in the output.
- `Simulation` (`simulation.dfy`) holds:
  - one iteration `Step` and `k` iterations `Run`, as functions on the
    grid-and-ant value `World`;
  - a class `Simulation` that keeps the iteration bound and the running
    counter the program stores in package variables;
  - its `Iterate` loop and the loop body `Advance`, which update the ant in
    place and are proved to compute `Run`;
  - the set-up (`Initial`, `Start`), the whole run without input or output
    (`Simulate`), and worked examples from the blank 10 by 10 grid.

Three behaviours of the code that a reader might not expect:

- **No remapping of the departed cell on a prepend.** When the ant steps off
  the left or top edge, the program prepends a column or row and moves the
  ant to coordinate 0. It does not shift the recorded coordinates of the cell
  it left, so the flip hits the new white cell the ant now stands on. That
  cell turns black, and the departed cell, now one row or column further on,
  keeps its colour. `StepPrependsColumn` and `StepPrependsRow` state the
  consequence.
- **Four steps from the blank 10 by 10 grid.** After four steps the ant is
  back at (5, 5) facing up, and all four cells of the square (5..6, 5..6)
  are black (`FourStepsFromBlank`).
- **The counter starts at -1.** It is incremented before it is compared
  with the bound, so from a fresh counter the loop performs exactly `n`
  steps. The program has no out-of-bounds termination policy: its
  `outOfBounds` flag is never set.

## Model

| member | source | states |
|---|---|---|
| Directions.NamesDistinct | main.go:21-34 | `Name` gives distinct facings distinct display names |
| Directions.Lookup | main.go:54-63 | the table has an entry exactly for the turns Left and Right; the entry's new facing is the quarter turn clockwise (Right) or counter-clockwise (Left) of the current facing; its displacement is the unit vector of the new facing |
| Directions.LeftUndoesRight | main.go:54-63 | a left turn after a right turn, or a right turn after a left turn, restores the facing |
| Directions.FourTurnsIdentity | main.go:54-63 | four table turns in the same sense restore the facing |
| Directions.TurnsPerpendicular | main.go:54-63 | the left and right turns give opposite facings, both perpendicular to the current one |
| Ants.Moved | main.go:74-96 | turning and advancing `steps` gives the geometric new facing, moves the position by `steps` times that facing's unit vector, and changes only one coordinate |
| Ants.FourMovesReturn | main.go:74-96 | four moves turning the same way by the same stride return the ant to its pose |
| Ants.Ant.constructor | main.go:246 | the new ant has the given row, column and facing |
| Ants.Ant.Move | main.go:74-96 | the ant's row, column and facing in place become those of `Moved` applied to its old pose |
| Grids.WhiteRow | main.go:137 | a freshly made row of length n holds n white cells |
| Grids.Blank | main.go:241-244 | the initial grid has `size` rows, each with `size` white cells, and is rectangular |
| Grids.NewGrid | main.go:241-244 | the loop builds exactly the blank square grid |
| Grids.ColumnOnLeft | main.go:126-133 | every row gains one white cell at index 0 followed by its old cells; a rectangular grid stays rectangular, one column wider |
| Grids.AddColumnOnLeft | main.go:126-133 | the row-by-row loop builds exactly `ColumnOnLeft` |
| Grids.RowOnTop | main.go:135-143 | a white row as wide as the first row is placed first and the old rows follow unchanged; the width is kept |
| Grids.AddRowOnTop | main.go:135-143 | the loop builds exactly `RowOnTop`; a grid with no rows is excluded, because the program indexes its first row |
| Grids.ColumnOnRight | main.go:145-152 | every row keeps its cells and gains one white cell at the end; one column wider |
| Grids.AddColumnOnRight | main.go:145-152 | the loop builds exactly `ColumnOnRight` |
| Grids.RowOnBottom | main.go:154-162 | the old rows come first and unchanged, followed by a white row as wide as the first row (empty when there were no rows) |
| Grids.AddRowOnBottom | main.go:154-162 | the loop builds exactly `RowOnBottom` |
| Grids.Flip | main.go:205 | exactly the cell (r, c) changes colour; all shapes are kept |
| Grids.FlipTwice | main.go:205 | flipping the same cell twice restores the grid |
| Rendering.Cells | main.go:103-115 | the text of the first j cells of a row has 2 * j characters |
| Rendering.CellsLayout | main.go:103-115 | each cell is written as its digit ('1' black, '0' white) followed by a space, in cell order |
| Rendering.LinesLength | main.go:102-119 | the first n rows of a grid of width w take n lines of 2 * w + 1 characters |
| Rendering.LinesChar | main.go:102-119 | line i of the text holds row i's cells followed by a newline, in row order |
| Rendering.Render | main.go:100-122 | the nested loop writes exactly `Text(g)` |
| Rendering.TextCell | main.go:100-122 | the text of a rectangular grid has 2 * width + 1 characters per row; cell (i, j) sits at offset i * (2 * width + 1) + 2 * j as its digit followed by a space; each line ends in a newline |
| Simulation.TurnFor | main.go:175-181 | the turn chosen for either colour is one the table accepts |
| Simulation.Extend | main.go:184-202 | grows the grid by at most one row or column and keeps it rectangular, keeping the facing; a pose at most one cell outside on one axis lands on a cell of the new grid; a pose on the grid changes nothing |
| Simulation.ExtendByEdge | main.go:184-202 | the edges are tested in the order left, top, right, bottom and the first that is crossed decides: a white column prepended with the ant moved to column 0, a white row prepended with the ant moved to row 0, a white column appended, or a white row appended, the ant kept in place in the last two |
| Simulation.Step | main.go:173-205 | one iteration keeps the grid rectangular with the ant on a cell, and grows the grid by at most one row or one column |
| Simulation.Run | main.go:164-209 | after k iterations the ant is still on the grid, the grid never shrinks, and its height plus width grows by at most k |
| Simulation.StepTurn | main.go:175-181 | the new facing is the counter-clockwise quarter turn on a black cell and the clockwise one on a white cell, read before the flip |
| Simulation.StepWithoutPrepend | main.go:184-205 | without a prepend the ant arrives where it moved, exactly the departed cell changes colour, and any appended row or column is white |
| Simulation.StepPrependsColumn | main.go:184-205 | stepping off the left edge prepends a white column, places the ant in column 0, blackens the ant's new cell, keeps the departed cell's colour, and shifts every old cell one column right |
| Simulation.StepPrependsRow | main.go:184-205 | stepping off the top edge prepends a white row, places the ant in row 0, blackens the ant's new cell, keeps the departed cell's colour, and keeps every old row one index lower |
| Simulation.InteriorStep | main.go:173-205 | when the ant lands on the grid, the step is exactly the flip of the departed cell and the move |
| Simulation.Initial | main.go:241-246 | the start state is an all-white size-by-size grid with the ant on the middle cell facing up |
| Simulation.Start | main.go:241-246 | builds that grid and a fresh ant in that pose |
| Simulation.Simulation.constructor | main.go:211-217 | the counter starts at -1 and the bound is the configured iteration count |
| Simulation.Simulation.Iterate | main.go:164-209 | from counter value c below the bound, the loop stops with the counter at the bound, having performed bound - c - 1 iterations: the returned grid and the ant's new pose are `Run` of the initial state |
| Simulation.Advance | main.go:173-205 | one round on the grid and the ant in place computes exactly `Step` |
| Simulation.Simulate | main.go:241-249 | a fresh run of n iterations from size-by-size returns the grid of `Run(Initial(size), n)`, which is rectangular and at least size by size |
| Simulation.OneStepFromBlank | main.go:164-209 | one step from the blank 10 by 10 grid leaves the ant at (5, 6) facing right, with only (5, 5) black |
| Simulation.FourStepsTrajectory | main.go:164-209 | the first four steps from the blank 10 by 10 grid stay on the grid and flip (5, 5), (5, 6), (6, 6), (6, 5) in turn, ending at (5, 5) facing up |
| Simulation.SquareOfFlips | main.go:205 | those four flips of the blank grid blacken exactly the 2 by 2 square at rows and columns 5 and 6 |
| Simulation.FourStepsFromBlank | main.go:164-209 | after four steps the ant is back at (5, 5) facing up, and exactly the 2 by 2 square it walked around is black |

## Left out

- Flag parsing, log-level selection, `init`, the logrus calls and the final `fmt.Printf` in `main` (main.go:211-252): input, output and a foreign library. The model takes the grid size and the iteration count as parameters. `Simulate` returns the grid, and `Render` gives its text.
- The `log.Fatalf` for a missing turn-table entry (main.go:78-80) is the precondition `IsTurn` of `Move`. The loop only ever asks for Left or Right, so the precondition always holds.
- The `default` branch of the grid-action switch (main.go:91-92) and the `panic` in `direction.String` (main.go:33) are not modelled. The datatypes are closed, so neither case can happen.
- `ant.String` (main.go:70-72): used only in log messages.
- `outOfBounds` (main.go:124, main.go:169): the flag is never set, so the test on it never stops the loop.
- The `panic` on a failed `bytes.Buffer` write (main.go:105-118): writing to an in-memory buffer does not fail here. The output is a string built by concatenation.
- Slice sharing:
  - `addRowOnTop` and `addRowOnBottom` reuse the old grid's row slices, and the flip then writes through that shared storage.
  - `addColumnOnRight`'s `append(g[r], false)` (main.go:148) can write into the old row's backing array when it has spare capacity.
  - On a step with no extension, the flip (main.go:205) writes into the caller's grid in place.
  - The model treats grids as values. This gives the same result, because the old grid is never read again.
- Go's `int` (64 bits on 64-bit platforms): coordinates, sizes and the counter are unbounded integers here. Overflow would need a size or an iteration count near the largest `int`.
- Recursion: `iterate` tail-calls itself once per iteration. It is modelled as a loop, so the Go stack depth is not modelled.
- `Initial`, `Start` and `Simulate` require `size >= 1`. The program panics for a negative size in `make` (main.go:241), and for size 0 in `len(g[0])` (main.go:167), which is evaluated even when debug logging is off.
- `Simulate` requires `n >= 0`: for a negative iteration count the program's loop never stops.
- The benchmark in `main_test.go`: it is not part of this model.
