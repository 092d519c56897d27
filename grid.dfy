/** The grid: a matrix of colours addressed as [row][column], `false` for
    white and `true` for black, and the four ways of growing it by one row or
    column of white cells. Each extension returns a fresh grid; the functions
    say what the new grid is, the methods build it row by row. */
module Grids {

  type Grid = seq<seq<bool>>

  /** At least one row, and every row as wide as the first. */
  predicate Rectangular(g: Grid)
  {
    |g| > 0 && forall i :: 0 <= i < |g| ==> |g[i]| == |g[0]|
  }

  function Width(g: Grid): nat
    requires |g| > 0
  {
    |g[0]|
  }

  predicate InBounds(g: Grid, r: int, c: int)
    requires Rectangular(g)
  {
    0 <= r < |g| && 0 <= c < Width(g)
  }

  /** A row of `n` white cells. */
  function WhiteRow(n: nat): (row: seq<bool>)
    ensures |row| == n && forall j :: 0 <= j < n ==> !row[j]
  {
    seq(n, _ => false)
  }

  /** The all-white `size` by `size` grid. */
  function Blank(size: nat): (g: Grid)
    ensures |g| == size
    ensures forall i :: 0 <= i < size ==> g[i] == WhiteRow(size)
    ensures size > 0 ==> Rectangular(g) && Width(g) == size
  {
    seq(size, _ => WhiteRow(size))
  }

  /** Builds the initial square grid, one white row at a time. */
  method NewGrid(size: int) returns (g: Grid)
    requires size >= 0
    ensures g == Blank(size)
  {
    g := seq(size, _ => []);
    for i := 0 to size
      invariant |g| == size
      invariant forall k :: 0 <= k < i ==> g[k] == WhiteRow(size)
      invariant forall k :: i <= k < size ==> g[k] == []
    {
      g := g[i := WhiteRow(size)];
    }
    assert forall k :: 0 <= k < size ==> g[k] == Blank(size)[k];
  }

  /** The grid with a white column prepended: every existing cell moves one
      column to the right, keeping its colour. */
  function ColumnOnLeft(g: Grid): (gg: Grid)
    ensures |gg| == |g|
    ensures forall r :: 0 <= r < |g| ==> |gg[r]| == |g[r]| + 1 && !gg[r][0] && gg[r][1..] == g[r]
    ensures Rectangular(g) ==> Rectangular(gg) && Width(gg) == Width(g) + 1
  {
    seq(|g|, r requires 0 <= r < |g| => [false] + g[r])
  }

  /** The grid with a white row, as wide as the first row, prepended: every
      existing row moves one index down, unchanged. */
  function RowOnTop(g: Grid): (gg: Grid)
    requires |g| > 0
    ensures |gg| == |g| + 1
    ensures gg[0] == WhiteRow(|g[0]|) && gg[1..] == g
    ensures Rectangular(g) ==> Rectangular(gg) && Width(gg) == Width(g)
  {
    [WhiteRow(|g[0]|)] + g
  }

  /** The grid with a white column appended: no existing cell moves. */
  function ColumnOnRight(g: Grid): (gg: Grid)
    ensures |gg| == |g|
    ensures forall r :: 0 <= r < |g| ==> |gg[r]| == |g[r]| + 1 && !gg[r][|g[r]|] && gg[r][..|g[r]|] == g[r]
    ensures Rectangular(g) ==> Rectangular(gg) && Width(gg) == Width(g) + 1
  {
    seq(|g|, r requires 0 <= r < |g| => g[r] + [false])
  }

  /** The grid with a white row appended, as wide as the first row (or empty
      when the grid had no rows): no existing row moves. */
  function RowOnBottom(g: Grid): (gg: Grid)
    ensures |gg| == |g| + 1
    ensures gg[..|g|] == g
    ensures gg[|g|] == WhiteRow(if |g| > 0 then |g[0]| else 0)
    ensures Rectangular(g) ==> Rectangular(gg) && Width(gg) == Width(g)
  {
    g + [WhiteRow(if |g| > 0 then |g[0]| else 0)]
  }

  method AddColumnOnLeft(g: Grid) returns (gg: Grid)
    ensures gg == ColumnOnLeft(g)
  {
    gg := seq(|g|, _ => []);
    for r := 0 to |g|
      invariant |gg| == |g|
      invariant forall k :: 0 <= k < r ==> gg[k] == [false] + g[k]
      invariant forall k :: r <= k < |g| ==> gg[k] == []
    {
      gg := gg[r := [false] + g[r]];
    }
    assert forall k :: 0 <= k < |g| ==> gg[k] == ColumnOnLeft(g)[k];
  }

  method AddRowOnTop(g: Grid) returns (gg: Grid)
    requires |g| > 0
    ensures gg == RowOnTop(g)
  {
    gg := seq(|g| + 1, _ => []);
    gg := gg[0 := WhiteRow(|g[0]|)];
    for r := 0 to |g|
      invariant |gg| == |g| + 1
      invariant gg[0] == WhiteRow(|g[0]|)
      invariant forall k :: 0 <= k < r ==> gg[k + 1] == g[k]
      invariant forall k :: r < k <= |g| ==> gg[k] == []
    {
      gg := gg[r + 1 := g[r]];
    }
    assert forall k :: 0 <= k <= |g| ==> gg[k] == RowOnTop(g)[k];
  }

  method AddColumnOnRight(g: Grid) returns (gg: Grid)
    ensures gg == ColumnOnRight(g)
  {
    gg := seq(|g|, _ => []);
    for r := 0 to |g|
      invariant |gg| == |g|
      invariant forall k :: 0 <= k < r ==> gg[k] == g[k] + [false]
      invariant forall k :: r <= k < |g| ==> gg[k] == []
    {
      gg := gg[r := g[r] + [false]];
    }
    assert forall k :: 0 <= k < |g| ==> gg[k] == ColumnOnRight(g)[k];
  }

  method AddRowOnBottom(g: Grid) returns (gg: Grid)
    ensures gg == RowOnBottom(g)
  {
    gg := seq(|g| + 1, _ => []);
    for r := 0 to |g|
      invariant |gg| == |g| + 1
      invariant forall k :: 0 <= k < r ==> gg[k] == g[k]
      invariant forall k :: r <= k <= |g| ==> gg[k] == []
    {
      gg := gg[r := g[r]];
    }
    // The new last row is as wide as the first row of the new grid, which is
    // the old first row, or the new (empty) row itself when there was none.
    gg := gg[|gg| - 1 := WhiteRow(|gg[0]|)];
    assert forall k :: 0 <= k <= |g| ==> gg[k] == RowOnBottom(g)[k];
  }

  /** The grid with the colour of cell (r, c) inverted and nothing else changed. */
  function Flip(g: Grid, r: int, c: int): (gg: Grid)
    requires 0 <= r < |g| && 0 <= c < |g[r]|
    ensures |gg| == |g|
    ensures forall i :: 0 <= i < |g| ==> |gg[i]| == |g[i]|
    ensures gg[r][c] == !g[r][c]
    ensures forall i, j :: 0 <= i < |g| && 0 <= j < |g[i]| && (i != r || j != c) ==> gg[i][j] == g[i][j]
    ensures Rectangular(g) ==> Rectangular(gg) && Width(gg) == Width(g)
  {
    g[r := g[r][c := !g[r][c]]]
  }

  /** Flipping a cell twice restores the grid. */
  lemma FlipTwice(g: Grid, r: int, c: int)
    requires 0 <= r < |g| && 0 <= c < |g[r]|
    ensures Flip(Flip(g, r, c), r, c) == g
  {
    var gg := Flip(Flip(g, r, c), r, c);
    assert forall i :: 0 <= i < |g| ==> gg[i] == g[i];
  }
}
