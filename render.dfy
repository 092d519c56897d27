/** The text form of a grid: each cell as "1 " (black) or "0 " (white), each
    row closed by a newline, nothing trimmed. */
module Rendering {
  import opened Grids

  function CellText(b: bool): string
  {
    if b then "1 " else "0 "
  }

  /** The text of the first `j` cells of a row. */
  function Cells(row: seq<bool>, j: nat): (s: string)
    requires j <= |row|
    ensures |s| == 2 * j
  {
    if j == 0 then "" else Cells(row, j - 1) + CellText(row[j - 1])
  }

  function RowText(row: seq<bool>): string
  {
    Cells(row, |row|)
  }

  /** The text of the first `i` rows of a grid, each closed by a newline. */
  function Lines(g: Grid, i: nat): string
    requires i <= |g|
  {
    if i == 0 then "" else Lines(g, i - 1) + RowText(g[i - 1]) + "\n"
  }

  function Text(g: Grid): string
  {
    Lines(g, |g|)
  }

  /** The number of characters one row of width `w` takes, newline included. */
  function LineLength(w: nat): nat
  {
    2 * w + 1
  }

  /** Writes the grid row by row, cell by cell. */
  method Render(g: Grid) returns (s: string)
    ensures s == Text(g)
  {
    s := "";
    for i := 0 to |g|
      invariant s == Lines(g, i)
    {
      ghost var above := s;
      for j := 0 to |g[i]|
        invariant s == above + Cells(g[i], j)
      {
        AppendAssoc(above, Cells(g[i], j), CellText(g[i][j]));
        if g[i][j] {
          s := s + "1 ";
        } else {
          s := s + "0 ";
        }
      }
      s := s + "\n";
    }
  }

  lemma AppendAssoc(a: string, b: string, c: string)
    ensures (a + b) + c == a + (b + c)
  {
  }

  /** The first `j` cells take two characters each: the cell's digit, then a
      space. */
  lemma {:induction false} CellsLayout(row: seq<bool>, j: nat)
    requires j <= |row|
    ensures forall k :: 0 <= k < j ==>
      Cells(row, j)[2 * k] == (if row[k] then '1' else '0') && Cells(row, j)[2 * k + 1] == ' '
  {
    if j > 0 {
      CellsLayout(row, j - 1);
    }
  }

  /** Where line `i` starts in the text of a grid of width `w`. */
  function LineStart(i: nat, w: nat): nat
  {
    if i == 0 then 0 else LineStart(i - 1, w) + LineLength(w)
  }

  lemma {:induction false} LineStartMonotone(i: nat, k: nat, w: nat)
    requires i <= k
    ensures LineStart(i, w) <= LineStart(k, w)
  {
    if i < k {
      LineStartMonotone(i, k - 1, w);
    }
  }

  lemma {:induction false} LineStartIsProduct(i: nat, w: nat)
    ensures LineStart(i, w) == i * LineLength(w)
  {
    if i > 0 {
      LineStartIsProduct(i - 1, w);
    }
  }

  lemma {:induction false} LinesLength(g: Grid, w: nat, n: nat)
    requires n <= |g|
    requires forall i :: 0 <= i < |g| ==> |g[i]| == w
    ensures |Lines(g, n)| == LineStart(n, w)
  {
    if n > 0 {
      LinesLength(g, w, n - 1);
    }
  }

  /** In the first `n` rows' text of a grid whose rows all have width `w`,
      line `i` starts at `LineStart(i, w)` and holds the row's text and a
      newline. */
  lemma {:induction false} LinesChar(g: Grid, w: nat, n: nat, i: nat, k: nat)
    requires forall q :: 0 <= q < |g| ==> |g[q]| == w
    requires i < n <= |g| && k < LineLength(w)
    ensures LineStart(i, w) + k < |Lines(g, n)|
    ensures Lines(g, n)[LineStart(i, w) + k] == (RowText(g[i]) + "\n")[k]
  {
    LinesLength(g, w, n - 1);
    if i < n - 1 {
      LinesChar(g, w, n - 1, i, k);
      LineStartMonotone(i + 1, n - 1, w);
    }
  }

  /** The text of a rectangular grid has `LineLength(width)` characters per
      row; the cell (i, j) is rendered at column 2 * j of line i as its digit
      followed by a space, and every line ends in a newline. */
  lemma TextCell(g: Grid, i: int, j: int)
    requires Rectangular(g) && InBounds(g, i, j)
    ensures |Text(g)| == |g| * LineLength(Width(g))
    ensures i * LineLength(Width(g)) + LineLength(Width(g)) <= |Text(g)|
    ensures Text(g)[i * LineLength(Width(g)) + 2 * j] == (if g[i][j] then '1' else '0')
    ensures Text(g)[i * LineLength(Width(g)) + 2 * j + 1] == ' '
    ensures Text(g)[i * LineLength(Width(g)) + 2 * Width(g)] == '\n'
  {
    var w := Width(g);
    LinesLength(g, w, |g|);
    LineStartMonotone(i + 1, |g|, w);
    CellsLayout(g[i], w);
    LinesChar(g, w, |g|, i, 2 * j);
    LinesChar(g, w, |g|, i, 2 * j + 1);
    LinesChar(g, w, |g|, i, 2 * w);
    LineStartIsProduct(i, w);
    LineStartIsProduct(|g|, w);
  }
}
