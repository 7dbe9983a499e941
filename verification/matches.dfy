/**
  Match detection and removal around the cell where a letter has just landed:
  the horizontal run through it (scanning left and right), the vertical run
  from it downwards, and the clearing of every run that reaches the threshold.
 */
module Matches {
  import opened Grid

  // ---------------------------------------------------------------------------
  // The three scans, each collecting cells in the order the scans visit them
  // ---------------------------------------------------------------------------

  /** How many cells the leftward scan of row y steps over, starting at column `left`: each holds `letter`, and the scan stops at the first that does not or at the left edge. */
  function ScanLeft(b: Board, width: int, height: int, left: int, y: int, letter: Letter): (n: nat)
    requires Total(b, width, height) && 0 <= y < height && left < width
    ensures n == 0 || n <= left + 1
    ensures forall k {:trigger b[(k, y)]} :: left - n < k <= left ==> b[(k, y)] == Tile(letter)
    ensures left - n < 0 || b[(left - n, y)] != Tile(letter)
    decreases left + 1
  {
    if left >= 0 && b[(left, y)] == Tile(letter) then 1 + ScanLeft(b, width, height, left - 1, y, letter) else 0
  }

  /** How many cells the rightward scan of row y steps over, starting at column `right`: each holds `letter`, and the scan stops at the first that does not or at the right edge. */
  function ScanRight(b: Board, width: int, height: int, right: int, y: int, letter: Letter): (n: nat)
    requires Total(b, width, height) && 0 <= y < height && 0 <= right
    ensures n == 0 || right + n <= width
    ensures forall k {:trigger b[(k, y)]} :: right <= k < right + n ==> b[(k, y)] == Tile(letter)
    ensures right + n >= width || b[(right + n, y)] != Tile(letter)
    decreases width - right
  {
    if right < width && b[(right, y)] == Tile(letter) then 1 + ScanRight(b, width, height, right + 1, y, letter) else 0
  }

  /** How many cells the downward scan of column x steps over, starting at row `down`: each holds `letter`, and the scan stops at the first that does not or at the bottom edge. */
  function ScanDown(b: Board, width: int, height: int, x: int, down: int, letter: Letter): (n: nat)
    requires Total(b, width, height) && 0 <= x < width && 0 <= down
    ensures n == 0 || down + n <= height
    ensures forall k {:trigger b[(x, k)]} :: down <= k < down + n ==> b[(x, k)] == Tile(letter)
    ensures down + n >= height || b[(x, down + n)] != Tile(letter)
    decreases height - down
  {
    if down < height && b[(x, down)] == Tile(letter) then 1 + ScanDown(b, width, height, x, down + 1, letter) else 0
  }

  /** The horizontal list: the origin, then the cells the scan found to its left (nearest first), then those to its right. */
  function HorizontalRun(b: Board, width: int, height: int, x: int, y: int, letter: Letter): (run: seq<Cell>)
    requires Total(b, width, height) && InGrid((x, y), width, height)
    ensures |run| == 1 + ScanLeft(b, width, height, x - 1, y, letter) + ScanRight(b, width, height, x + 1, y, letter)
    ensures run[0] == (x, y)
    ensures forall i :: 0 < i < |run| ==> run[i].1 == y && run[i].0 != x && InGrid(run[i], width, height) && b[run[i]] == Tile(letter)
  {
    var toLeft := ScanLeft(b, width, height, x - 1, y, letter);
    var toRight := ScanRight(b, width, height, x + 1, y, letter);
    [(x, y)] + seq(toLeft, i => (x - 1 - i, y)) + seq(toRight, i => (x + 1 + i, y))
  }

  /** The vertical list: the origin, then the cells the scan found below it. Nothing above the origin is looked at. */
  function VerticalRun(b: Board, width: int, height: int, x: int, y: int, letter: Letter): (run: seq<Cell>)
    requires Total(b, width, height) && InGrid((x, y), width, height)
    ensures |run| == 1 + ScanDown(b, width, height, x, y + 1, letter)
    ensures run[0] == (x, y)
    ensures forall i :: 0 < i < |run| ==> run[i].0 == x && y < run[i].1 < height && b[run[i]] == Tile(letter)
  {
    [(x, y)] + seq(ScanDown(b, width, height, x, y + 1, letter), i => (x, y + 1 + i))
  }

  // ---------------------------------------------------------------------------
  // Reference definitions of the two runs, without any scanning
  // ---------------------------------------------------------------------------

  /** Column c of row y is on the horizontal run through (x, y): every cell from c up to, not including, x holds `letter`. */
  ghost predicate OnRowRun(b: Board, width: int, height: int, x: int, y: int, c: int, letter: Letter)
    requires Total(b, width, height) && InGrid((x, y), width, height)
  {
    0 <= c < width && forall k {:trigger b[(k, y)]} :: (c <= k < x || x < k <= c) ==> b[(k, y)] == Tile(letter)
  }

  /** Row r of column x is on the downward run from (x, y): every cell below the origin down to r holds `letter`. */
  ghost predicate OnColumnRun(b: Board, width: int, height: int, x: int, y: int, r: int, letter: Letter)
    requires Total(b, width, height) && InGrid((x, y), width, height)
  {
    y <= r < height && forall k {:trigger b[(x, k)]} :: y < k <= r ==> b[(x, k)] == Tile(letter)
  }

  /** The maximal same-letter stretch of row y containing the origin. */
  ghost function RowRun(b: Board, width: int, height: int, x: int, y: int, letter: Letter): set<Cell>
    requires Total(b, width, height) && InGrid((x, y), width, height)
  {
    set c | 0 <= c < width && OnRowRun(b, width, height, x, y, c, letter) :: (c, y)
  }

  /** The origin together with the same-letter cells directly below it, as far as they reach. */
  ghost function ColumnRun(b: Board, width: int, height: int, x: int, y: int, letter: Letter): set<Cell>
    requires Total(b, width, height) && InGrid((x, y), width, height)
  {
    set r | y <= r < height && OnColumnRun(b, width, height, x, y, r, letter) :: (x, r)
  }

  // ---------------------------------------------------------------------------
  // The scans compute the runs
  // ---------------------------------------------------------------------------

  /** A column is on the row run exactly when it lies between the two points where the scans stopped. */
  lemma RowRunBetweenScans(b: Board, width: int, height: int, x: int, y: int, letter: Letter)
    requires Total(b, width, height) && InGrid((x, y), width, height)
    ensures forall c :: 0 <= c < width ==>
      (OnRowRun(b, width, height, x, y, c, letter) <==>
       x - ScanLeft(b, width, height, x - 1, y, letter) <= c <= x + ScanRight(b, width, height, x + 1, y, letter))
  {
    var nL := ScanLeft(b, width, height, x - 1, y, letter);
    var nR := ScanRight(b, width, height, x + 1, y, letter);
    forall c | 0 <= c < width
      ensures OnRowRun(b, width, height, x, y, c, letter) <==> x - nL <= c <= x + nR
    {
      if c < x - nL {
        assert c <= x - 1 - nL < x;
      }
      if c > x + nR {
        assert x < x + 1 + nR <= c;
      }
    }
  }

  /** Position i of the horizontal list: the origin, then columns x-1, x-2, ... then x+1, x+2, ... */
  lemma HorizontalRunAt(b: Board, width: int, height: int, x: int, y: int, letter: Letter)
    requires Total(b, width, height) && InGrid((x, y), width, height)
    ensures var nL := ScanLeft(b, width, height, x - 1, y, letter);
      var run := HorizontalRun(b, width, height, x, y, letter);
      && |run| == 1 + nL + ScanRight(b, width, height, x + 1, y, letter)
      && forall i :: 0 <= i < |run| ==> run[i] == (if i <= nL then (x - i, y) else (x + i - nL, y))
  {
    var nL := ScanLeft(b, width, height, x - 1, y, letter);
    var run := HorizontalRun(b, width, height, x, y, letter);
    forall i | 0 <= i < |run|
      ensures run[i] == (if i <= nL then (x - i, y) else (x + i - nL, y))
    {
      if i == 0 {
      } else if i <= nL {
        assert run[i] == (x - 1 - (i - 1), y);
      } else {
        assert run[i] == (x + 1 + (i - 1 - nL), y);
      }
    }
  }

  /** No cell occurs twice in the horizontal list. */
  lemma HorizontalRunDistinct(b: Board, width: int, height: int, x: int, y: int, letter: Letter)
    requires Total(b, width, height) && InGrid((x, y), width, height)
    ensures Distinct(HorizontalRun(b, width, height, x, y, letter))
  {
    HorizontalRunAt(b, width, height, x, y, letter);
  }

  /** Every cell of the horizontal list is on the row run. */
  lemma HorizontalRunWithinRowRun(b: Board, width: int, height: int, x: int, y: int, letter: Letter)
    requires Total(b, width, height) && InGrid((x, y), width, height)
    ensures Elements(HorizontalRun(b, width, height, x, y, letter)) <= RowRun(b, width, height, x, y, letter)
  {
    var run := HorizontalRun(b, width, height, x, y, letter);
    forall i | 0 <= i < |run|
      ensures run[i] in RowRun(b, width, height, x, y, letter)
    {
      HorizontalRunCellOnRowRun(b, width, height, x, y, letter, i);
    }
  }

  /** Position i of the horizontal list is a cell of the row run. */
  lemma HorizontalRunCellOnRowRun(b: Board, width: int, height: int, x: int, y: int, letter: Letter, i: int)
    requires Total(b, width, height) && InGrid((x, y), width, height)
    requires 0 <= i < |HorizontalRun(b, width, height, x, y, letter)|
    ensures HorizontalRun(b, width, height, x, y, letter)[i] in RowRun(b, width, height, x, y, letter)
  {
    var run := HorizontalRun(b, width, height, x, y, letter);
    HorizontalRunAt(b, width, height, x, y, letter);
    RowRunBetweenScans(b, width, height, x, y, letter);
    var c := run[i];
    assert c.1 == y && 0 <= c.0 < width;
    assert OnRowRun(b, width, height, x, y, c.0, letter);
  }

  /** Every cell of the row run is in the horizontal list. */
  lemma RowRunWithinHorizontalRun(b: Board, width: int, height: int, x: int, y: int, letter: Letter)
    requires Total(b, width, height) && InGrid((x, y), width, height)
    ensures RowRun(b, width, height, x, y, letter) <= Elements(HorizontalRun(b, width, height, x, y, letter))
  {
    forall k | 0 <= k < width && OnRowRun(b, width, height, x, y, k, letter)
      ensures (k, y) in HorizontalRun(b, width, height, x, y, letter)
    {
      RowRunCellInHorizontalRun(b, width, height, x, y, letter, k);
    }
  }

  /** A column on the row run is listed in the horizontal list. */
  lemma RowRunCellInHorizontalRun(b: Board, width: int, height: int, x: int, y: int, letter: Letter, k: int)
    requires Total(b, width, height) && InGrid((x, y), width, height)
    requires 0 <= k < width && OnRowRun(b, width, height, x, y, k, letter)
    ensures (k, y) in HorizontalRun(b, width, height, x, y, letter)
  {
    var nL := ScanLeft(b, width, height, x - 1, y, letter);
    var run := HorizontalRun(b, width, height, x, y, letter);
    HorizontalRunAt(b, width, height, x, y, letter);
    RowRunBetweenScans(b, width, height, x, y, letter);
    if k <= x {
      assert run[x - k] == (k, y);
    } else {
      assert run[nL + k - x] == (k, y);
    }
  }

  /** The horizontal list holds each cell of the row run exactly once, and nothing else. */
  lemma HorizontalRunIsRowRun(b: Board, width: int, height: int, x: int, y: int, letter: Letter)
    requires Total(b, width, height) && InGrid((x, y), width, height)
    ensures Distinct(HorizontalRun(b, width, height, x, y, letter))
    ensures Elements(HorizontalRun(b, width, height, x, y, letter)) == RowRun(b, width, height, x, y, letter)
    ensures |HorizontalRun(b, width, height, x, y, letter)| == |RowRun(b, width, height, x, y, letter)|
  {
    HorizontalRunDistinct(b, width, height, x, y, letter);
    HorizontalRunWithinRowRun(b, width, height, x, y, letter);
    RowRunWithinHorizontalRun(b, width, height, x, y, letter);
    DistinctCount(HorizontalRun(b, width, height, x, y, letter));
  }

  /** The vertical list holds each cell of the column run exactly once, and nothing else. */
  lemma VerticalRunIsColumnRun(b: Board, width: int, height: int, x: int, y: int, letter: Letter)
    requires Total(b, width, height) && InGrid((x, y), width, height)
    ensures Distinct(VerticalRun(b, width, height, x, y, letter))
    ensures Elements(VerticalRun(b, width, height, x, y, letter)) == ColumnRun(b, width, height, x, y, letter)
    ensures |VerticalRun(b, width, height, x, y, letter)| == |ColumnRun(b, width, height, x, y, letter)|
  {
    var nD := ScanDown(b, width, height, x, y + 1, letter);
    var run := VerticalRun(b, width, height, x, y, letter);
    assert |run| == 1 + nD;
    assert forall i :: 0 <= i < |run| ==> run[i] == (x, y + i);
    forall i, j | 0 <= i < j < |run|
      ensures run[i] != run[j]
    {
    }
    forall r | y <= r < height
      ensures OnColumnRun(b, width, height, x, y, r, letter) <==> r <= y + nD
    {
      if r > y + nD {
        assert y < y + 1 + nD <= r;
      }
    }
    var column := ColumnRun(b, width, height, x, y, letter);
    forall c | c in run
      ensures c in column
    {
      var i :| 0 <= i < |run| && run[i] == c;
      assert OnColumnRun(b, width, height, x, y, c.1, letter);
    }
    forall c | c in column
      ensures c in run
    {
      var r :| y <= r < height && OnColumnRun(b, width, height, x, y, r, letter) && c == (x, r);
      assert run[r - y] == c;
    }
    assert Elements(run) == column;
    DistinctCount(run);
  }

  // ---------------------------------------------------------------------------
  // Clearing
  // ---------------------------------------------------------------------------

  /** The board after clearing, and the set of cells cleared. */
  datatype Clearing = Clearing(board: Board, destroyed: set<Cell>)

  /** The cells the clearing removes: each scanned list whose length reaches `destroyCount`, as a set; these are exactly the qualifying maximal runs. */
  function DestroyedCells(b: Board, width: int, height: int, destroyCount: int, x: int, y: int, letter: Letter): (s: set<Cell>)
    requires Total(b, width, height) && InGrid((x, y), width, height)
    ensures s ==
      (if |RowRun(b, width, height, x, y, letter)| >= destroyCount then RowRun(b, width, height, x, y, letter) else {}) +
      (if |ColumnRun(b, width, height, x, y, letter)| >= destroyCount then ColumnRun(b, width, height, x, y, letter) else {})
    ensures forall c :: c in s ==> InGrid(c, width, height)
  {
    var horizontal := HorizontalRun(b, width, height, x, y, letter);
    var vertical := VerticalRun(b, width, height, x, y, letter);
    HorizontalRunIsRowRun(b, width, height, x, y, letter);
    VerticalRunIsColumnRun(b, width, height, x, y, letter);
    (if |horizontal| >= destroyCount then Elements(horizontal) else {}) +
    (if |vertical| >= destroyCount then Elements(vertical) else {})
  }

  /** The cells the two blanking loops visit, in order: the horizontal list if it reaches `destroyCount`, then the vertical list if it does. */
  function QualifyingCells(b: Board, width: int, height: int, destroyCount: int, x: int, y: int, letter: Letter): (cells: seq<Cell>)
    requires Total(b, width, height) && InGrid((x, y), width, height)
    ensures Elements(cells) == DestroyedCells(b, width, height, destroyCount, x, y, letter)
  {
    var horizontal := HorizontalRun(b, width, height, x, y, letter);
    var vertical := VerticalRun(b, width, height, x, y, letter);
    (if |horizontal| >= destroyCount then horizontal else []) +
    (if |vertical| >= destroyCount then vertical else [])
  }

  /** Blank the listed cells one after another, as the loops do; a cell listed twice is simply blanked twice. */
  function BlankCells(b: Board, cells: seq<Cell>): (r: Board)
    requires forall c :: c in cells ==> c in b
    ensures r.Keys == b.Keys
    ensures forall c {:trigger r[c]} :: c in b ==> r[c] == (if c in cells then Empty else b[c])
    decreases |cells|
  {
    if cells == [] then b
    else
      var b' := b[cells[0] := Empty];
      assert forall c :: c in cells <==> c == cells[0] || c in cells[1..];
      BlankCells(b', cells[1..])
  }

  /** Blank every run through (x, y) that holds at least `destroyCount` cells; report the cells blanked. */
  function DestroyMatches(b: Board, width: int, height: int, destroyCount: int, x: int, y: int, letter: Letter): (r: Clearing)
    requires Total(b, width, height) && InGrid((x, y), width, height)
    ensures r.destroyed ==
      (if |RowRun(b, width, height, x, y, letter)| >= destroyCount then RowRun(b, width, height, x, y, letter) else {}) +
      (if |ColumnRun(b, width, height, x, y, letter)| >= destroyCount then ColumnRun(b, width, height, x, y, letter) else {})
    ensures Total(r.board, width, height)
    ensures forall c :: c in r.destroyed ==> InGrid(c, width, height) && r.board[c] == Empty
    ensures forall c :: c in b && c !in r.destroyed ==> r.board[c] == b[c]
  {
    var destroyed := DestroyedCells(b, width, height, destroyCount, x, y, letter);
    var cells := QualifyingCells(b, width, height, destroyCount, x, y, letter);
    assert forall c :: c in cells <==> c in destroyed;
    Clearing(BlankCells(b, cells), destroyed)
  }

  // ---------------------------------------------------------------------------
  // The shape of the cleared set
  // ---------------------------------------------------------------------------

  /** A cell of the row run lies in the origin's row, on the run. */
  lemma RowRunMember(b: Board, width: int, height: int, x: int, y: int, letter: Letter, c: Cell)
    requires Total(b, width, height) && InGrid((x, y), width, height)
    requires c in RowRun(b, width, height, x, y, letter)
    ensures c.1 == y && OnRowRun(b, width, height, x, y, c.0, letter)
  {
  }

  /** A cell of the column run lies in the origin's column, at or below it, on the run. */
  lemma ColumnRunMember(b: Board, width: int, height: int, x: int, y: int, letter: Letter, c: Cell)
    requires Total(b, width, height) && InGrid((x, y), width, height)
    requires c in ColumnRun(b, width, height, x, y, letter)
    ensures c.0 == x && y <= c.1 && OnColumnRun(b, width, height, x, y, c.1, letter)
  {
  }

  /** The column run holds every cell between the origin and any of its cells. */
  lemma ColumnRunDownward(b: Board, width: int, height: int, x: int, y: int, letter: Letter, r: int, s: int)
    requires Total(b, width, height) && InGrid((x, y), width, height)
    requires (x, r) in ColumnRun(b, width, height, x, y, letter) && y <= s <= r
    ensures (x, s) in ColumnRun(b, width, height, x, y, letter)
  {
    ColumnRunMember(b, width, height, x, y, letter, (x, r));
    assert OnColumnRun(b, width, height, x, y, s, letter);
  }

  /** A cleared cell outside the origin's column lies in the origin's row and held the letter. */
  lemma DestroyedOffColumn(b: Board, width: int, height: int, destroyCount: int, x: int, y: int, letter: Letter, d: Cell)
    requires Total(b, width, height) && InGrid((x, y), width, height)
    requires d in DestroyMatches(b, width, height, destroyCount, x, y, letter).destroyed && d.0 != x
    ensures d.1 == y && b[d] == Tile(letter)
  {
    if d in ColumnRun(b, width, height, x, y, letter) {
      ColumnRunMember(b, width, height, x, y, letter, d);
    }
    RowRunMember(b, width, height, x, y, letter, d);
  }

  /** A cleared cell in the origin's column lies at or below the origin. */
  lemma DestroyedInColumn(b: Board, width: int, height: int, destroyCount: int, x: int, y: int, letter: Letter, d: Cell)
    requires Total(b, width, height) && InGrid((x, y), width, height)
    requires d in DestroyMatches(b, width, height, destroyCount, x, y, letter).destroyed && d.0 == x
    ensures y <= d.1
  {
    if d in ColumnRun(b, width, height, x, y, letter) {
      ColumnRunMember(b, width, height, x, y, letter, d);
    } else {
      RowRunMember(b, width, height, x, y, letter, d);
    }
  }

  /** The cleared cells of the origin's column reach down from the origin without gaps. */
  lemma DestroyedColumnPrefix(b: Board, width: int, height: int, destroyCount: int, x: int, y: int, letter: Letter, d: Cell, r: int)
    requires Total(b, width, height) && InGrid((x, y), width, height)
    requires d in DestroyMatches(b, width, height, destroyCount, x, y, letter).destroyed && d.0 == x
    requires y <= r <= d.1
    ensures (x, r) in DestroyMatches(b, width, height, destroyCount, x, y, letter).destroyed
  {
    var column := ColumnRun(b, width, height, x, y, letter);
    if |column| >= destroyCount && d in column {
      ColumnRunDownward(b, width, height, x, y, letter, d.1, r);
    } else {
      RowRunMember(b, width, height, x, y, letter, d);
      assert r == d.1;
      assert (x, r) == (d.0, d.1);
    }
  }
}
