/** The simulation loop of Langton's ant: read the cell under the ant, turn
    right on white and left on black, move one cell, grow the grid on the edge
    the ant crossed, flip the cell at the coordinates the ant left, repeat.

    As in the program, the coordinates of the departed cell are recorded
    before the move and are not shifted when a row or column is prepended, so
    on such a step the cell flipped is the newly added one the ant now stands
    on, and the departed cell keeps its colour. */
module Simulation {
  import opened Directions
  import opened Ants
  import opened Grids

  /** The grid and the ant together. */
  datatype World = World(grid: Grid, ant: Pose)

  /** A state the loop can run from: a rectangular grid with the ant on a cell. */
  predicate Valid(w: World)
  {
    Rectangular(w.grid) && InBounds(w.grid, w.ant.r, w.ant.c)
  }

  /** Langton's rule: on a black cell turn left, on a white cell turn right. */
  function TurnFor(black: bool): (t: Direction)
    ensures IsTurn(t)
  {
    if black then Left else Right
  }

  /** Where the ant goes from `w`, before the grid is grown. */
  function Arrival(w: World): Pose
    requires Valid(w)
  {
    Moved(w.ant, TurnFor(w.grid[w.ant.r][w.ant.c]), 1)
  }

  /** Grows the grid on the first edge, in the order left, top, right, bottom,
      that the pose lies beyond, and moves a negative coordinate to 0. A pose
      at most one cell outside on one axis only ends up on a cell of the new
      grid, which is the old grid grown by one row or one column, or by
      nothing when the pose was already inside. */
  function Extend(g: Grid, p: Pose): (e: (Grid, Pose))
    requires Rectangular(g)
    ensures Rectangular(e.0) && e.1.dir == p.dir
    ensures || (|e.0| == |g| && Width(e.0) == Width(g))
            || (|e.0| == |g| + 1 && Width(e.0) == Width(g))
            || (|e.0| == |g| && Width(e.0) == Width(g) + 1)
    ensures -1 <= p.r <= |g| && -1 <= p.c <= Width(g) && (0 <= p.r < |g| || 0 <= p.c < Width(g))
            ==> InBounds(e.0, e.1.r, e.1.c)
    ensures InBounds(g, p.r, p.c) ==> e == (g, p)
  {
    if p.c < 0 then (ColumnOnLeft(g), p.(c := 0))
    else if p.r < 0 then (RowOnTop(g), p.(r := 0))
    else if p.c >= Width(g) then (ColumnOnRight(g), p)
    else if p.r >= |g| then (RowOnBottom(g), p)
    else (g, p)
  }

  /** The edge tests come in the order left, top, right, bottom, and the
      first one that holds decides the extension: a column prepended (the
      pose moved to column 0), a row prepended (the pose moved to row 0), a
      column appended or a row appended (the pose kept). */
  lemma ExtendByEdge(g: Grid, p: Pose)
    requires Rectangular(g)
    ensures p.c < 0 ==> Extend(g, p) == (ColumnOnLeft(g), p.(c := 0))
    ensures 0 <= p.c && p.r < 0 ==> Extend(g, p) == (RowOnTop(g), p.(r := 0))
    ensures 0 <= p.r && Width(g) <= p.c ==> Extend(g, p) == (ColumnOnRight(g), p)
    ensures 0 <= p.c < Width(g) && |g| <= p.r ==> Extend(g, p) == (RowOnBottom(g), p)
  {
  }

  /** One iteration of the loop. The ant stays on the grid, the grid stays
      rectangular and grows by at most one row or one column. */
  function Step(w: World): (w': World)
    requires Valid(w)
    ensures Valid(w')
    ensures || (|w'.grid| == |w.grid| && Width(w'.grid) == Width(w.grid))
            || (|w'.grid| == |w.grid| + 1 && Width(w'.grid) == Width(w.grid))
            || (|w'.grid| == |w.grid| && Width(w'.grid) == Width(w.grid) + 1)
  {
    var oldR, oldC := w.ant.r, w.ant.c;
    var e := Extend(w.grid, Arrival(w));
    World(Flip(e.0, oldR, oldC), e.1)
  }

  /** The world after `k` iterations. The grid never shrinks, and its height
      plus width grows by at most `k`. */
  function Run(w: World, k: nat): (w': World)
    requires Valid(w)
    ensures Valid(w')
    ensures |w.grid| <= |w'.grid| && Width(w.grid) <= Width(w'.grid)
    ensures |w'.grid| + Width(w'.grid) <= |w.grid| + Width(w.grid) + k
  {
    if k == 0 then w else Step(Run(w, k - 1))
  }

  /** The facing after a step is the quarter turn to the left on a black cell,
      to the right on a white one, the colour being read before the flip. */
  lemma StepTurn(w: World)
    requires Valid(w)
    ensures w.grid[w.ant.r][w.ant.c] ==> Step(w).ant.dir == CounterClockwise(w.ant.dir)
    ensures !w.grid[w.ant.r][w.ant.c] ==> Step(w).ant.dir == Clockwise(w.ant.dir)
  {
  }

  /** A step that prepends nothing: the ant arrives one cell along its new
      facing, exactly the departed cell changes colour, and any appended row
      or column is white. */
  lemma StepWithoutPrepend(w: World)
    requires Valid(w)
    requires Arrival(w).r >= 0 && Arrival(w).c >= 0
    ensures Step(w).ant == Arrival(w)
    ensures var g, g' := w.grid, Step(w).grid;
      && g'[w.ant.r][w.ant.c] == !g[w.ant.r][w.ant.c]
      && (forall i, j :: 0 <= i < |g| && 0 <= j < Width(g) && (i, j) != (w.ant.r, w.ant.c) ==> g'[i][j] == g[i][j])
      && (forall i, j :: 0 <= i < |g'| && 0 <= j < Width(g') && (i >= |g| || j >= Width(g)) ==> !g'[i][j])
  {
  }

  /** A step off the left edge: a white column is prepended and the ant is
      placed in it, but the recorded departed coordinates (row r, column 0)
      are not shifted, so the flip blackens the ant's new cell (r, 0) while
      the departed cell, now at (r, 1), keeps its colour. Every old cell
      keeps its colour one column to the right. */
  lemma StepPrependsColumn(w: World)
    requires Valid(w)
    requires Arrival(w).c < 0
    ensures w.ant.c == 0
    ensures Step(w).ant == Arrival(w).(c := 0)
    ensures var g, g', r := w.grid, Step(w).grid, w.ant.r;
      && |g'| == |g| && Width(g') == Width(g) + 1
      && g'[r][0] && g'[r][1] == g[r][0]
      && (forall i :: 0 <= i < |g| && i != r ==> !g'[i][0])
      && (forall i, j :: 0 <= i < |g| && 0 <= j < Width(g) ==> g'[i][j + 1] == g[i][j])
  {
  }

  /** A step off the top edge: a white row is prepended and the ant is placed
      in it, but the recorded departed coordinates (row 0, column c) are not
      shifted, so the flip blackens the ant's new cell (0, c) while the
      departed cell, now at (1, c), keeps its colour. Every old row moves one
      index down unchanged. */
  lemma StepPrependsRow(w: World)
    requires Valid(w)
    requires Arrival(w).r < 0
    ensures w.ant.r == 0
    ensures Step(w).ant == Arrival(w).(r := 0)
    ensures var g, g', c := w.grid, Step(w).grid, w.ant.c;
      && |g'| == |g| + 1 && Width(g') == Width(g)
      && g'[0][c] && g'[1][c] == g[0][c]
      && (forall j :: 0 <= j < Width(g) && j != c ==> !g'[0][j])
      && g'[1..] == g
  {
  }

  /** The initial state: an all-white `size` by `size` grid, the ant on the
      middle cell facing up. */
  function Initial(size: int): (w: World)
    requires size >= 1
    ensures Valid(w) && |w.grid| == size && Width(w.grid) == size
    ensures forall i, j :: 0 <= i < size && 0 <= j < size ==> !w.grid[i][j]
    ensures w.ant == Pose(size / 2, size / 2, Up)
  {
    World(Blank(size), Pose(size / 2, size / 2, Up))
  }

  /** Builds the initial grid and ant. */
  method Start(size: int) returns (g: Grid, a: Ant)
    requires size >= 1
    ensures fresh(a)
    ensures World(g, a.Snapshot()) == Initial(size)
  {
    g := NewGrid(size);
    a := new Ant(size / 2, size / 2, Up);
  }

  /** The loop state the program keeps in package variables: the configured
      number of iterations and the running counter, which starts at -1. */
  class Simulation {
    const iterations: int
    var currIteration: int

    constructor (iterations: int)
      ensures this.iterations == iterations && currIteration == -1
    {
      this.iterations := iterations;
      currIteration := -1;
    }

    /** Runs the loop until the counter, incremented at the top of every
        round, equals the configured number of iterations: from the counter
        value c it performs iterations - c - 1 steps, updating the ant in
        place. If the counter has already reached the bound the loop would
        never stop, so that is excluded. */
    method Iterate(g: Grid, a: Ant) returns (res: Grid)
      requires Valid(World(g, a.Snapshot()))
      requires currIteration < iterations
      modifies this, a
      ensures currIteration == iterations
      ensures World(res, a.Snapshot()) == Run(World(g, old(a.Snapshot())), iterations - old(currIteration) - 1)
    {
      ghost var w0 := World(g, a.Snapshot());
      ghost var done: nat := 0;
      res := g;
      currIteration := currIteration + 1;
      while currIteration != iterations
        invariant currIteration <= iterations
        invariant done == currIteration - old(currIteration) - 1
        invariant World(res, a.Snapshot()) == Run(w0, done)
        decreases iterations - currIteration
      {
        res := Advance(res, a);
        done := done + 1;
        currIteration := currIteration + 1;
      }
    }
  }

  /** One round of the loop on the grid and the ant in place: read the cell,
      move, grow the grid on the crossed edge (resetting a negative
      coordinate to 0), then flip the cell at the recorded coordinates. */
  method Advance(g: Grid, a: Ant) returns (res: Grid)
    requires Valid(World(g, a.Snapshot()))
    modifies a
    ensures World(res, a.Snapshot()) == Step(World(g, old(a.Snapshot())))
  {
    ghost var before := World(g, a.Snapshot());
    ghost var e := Extend(g, Arrival(before));
    var oldR, oldC := a.r, a.c;
    if g[a.r][a.c] {
      a.Move(Left, 1);
    } else {
      a.Move(Right, 1);
    }
    assert a.Snapshot() == Arrival(before);
    res := g;
    if a.c < 0 {
      a.c := 0;
      res := AddColumnOnLeft(res);
    } else if a.r < 0 {
      a.r := 0;
      res := AddRowOnTop(res);
    } else if a.c >= |res[0]| {
      res := AddColumnOnRight(res);
    } else if a.r >= |res| {
      res := AddRowOnBottom(res);
    }
    assert (res, a.Snapshot()) == e;
    res := res[oldR := res[oldR][oldC := !res[oldR][oldC]]];
  }

  /** The whole run without its input and output: set up a `size` by `size`
      grid, run `n` iterations from a fresh counter, and return the grid. */
  method Simulate(size: int, n: int) returns (g: Grid)
    requires size >= 1 && n >= 0
    ensures g == Run(Initial(size), n).grid
    ensures Rectangular(g) && size <= |g| && size <= Width(g)
  {
    var a;
    g, a := Start(size);
    var sim := new Simulation(n);
    g := sim.Iterate(g, a);
  }

  /** A step whose arrival cell is on the grid flips exactly the departed cell. */
  lemma InteriorStep(w: World)
    requires Valid(w)
    requires InBounds(w.grid, Arrival(w).r, Arrival(w).c)
    ensures Step(w) == World(Flip(w.grid, w.ant.r, w.ant.c), Arrival(w))
  {
  }

  /** From a blank 10 by 10 grid with the ant at (5, 5) facing up, one step
      leaves the ant at (5, 6) facing right with only (5, 5) black. */
  lemma OneStepFromBlank()
    ensures Run(Initial(10), 1).ant == Pose(5, 6, Right)
    ensures var g := Run(Initial(10), 1).grid;
      |g| == 10 && forall i, j :: 0 <= i < 10 && 0 <= j < 10 ==> |g[i]| == 10 && g[i][j] == (i == 5 && j == 5)
  {
  }

  /** Continuing a run by one iteration whose arrival cell is on the grid. */
  lemma RunOnInterior(w0: World, k: nat, g: Grid, p: Pose)
    requires Valid(w0) && Run(w0, k) == World(g, p)
    requires InBounds(g, Arrival(World(g, p)).r, Arrival(World(g, p)).c)
    ensures Run(w0, k + 1) == World(Flip(g, p.r, p.c), Arrival(World(g, p)))
  {
  }

  /** The first four steps from the blank 10 by 10 grid, each one on the
      grid, flip the cells (5, 5), (5, 6), (6, 6), (6, 5) in turn. */
  lemma FourStepsTrajectory()
    ensures Run(Initial(10), 4).ant == Pose(5, 5, Up)
    ensures Run(Initial(10), 4).grid == Flip(Flip(Flip(Flip(Blank(10), 5, 5), 5, 6), 6, 6), 6, 5)
  {
    var w0 := Initial(10);
    var g1 := Flip(Blank(10), 5, 5);
    var g2 := Flip(g1, 5, 6);
    var g3 := Flip(g2, 6, 6);
    RunOnInterior(w0, 0, Blank(10), Pose(5, 5, Up));
    assert !g1[5][6];
    RunOnInterior(w0, 1, g1, Pose(5, 6, Right));
    assert !g2[6][6];
    RunOnInterior(w0, 2, g2, Pose(6, 6, Down));
    assert !g3[6][5];
    RunOnInterior(w0, 3, g3, Pose(6, 5, Left));
  }

  /** Flipping (5, 5), (5, 6), (6, 6), (6, 5) of the blank 10 by 10 grid
      blackens exactly that 2 by 2 square. */
  lemma SquareOfFlips()
    ensures var g := Flip(Flip(Flip(Flip(Blank(10), 5, 5), 5, 6), 6, 6), 6, 5);
      |g| == 10 && forall i, j :: 0 <= i < 10 && 0 <= j < 10 ==>
        |g[i]| == 10 && g[i][j] == (5 <= i <= 6 && 5 <= j <= 6)
  {
  }

  /** Four steps from the same start bring the ant back to (5, 5) facing up,
      with the whole 2 by 2 square it walked around black. */
  lemma FourStepsFromBlank()
    ensures Run(Initial(10), 4).ant == Pose(5, 5, Up)
    ensures var g := Run(Initial(10), 4).grid;
      |g| == 10 && forall i, j :: 0 <= i < 10 && 0 <= j < 10 ==>
        |g[i]| == 10 && g[i][j] == (5 <= i <= 6 && 5 <= j <= 6)
  {
    FourStepsTrajectory();
    SquareOfFlips();
  }
}
