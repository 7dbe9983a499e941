/**
  What a drop leaves behind. The drop writes the current letter at its
  landing row, clears the qualifying runs through it, and shifts a column
  down once per cleared cell, in whatever order the cleared set is iterated.
  This module shows that every such order gives the same board, states that
  board against the board before the drop, and proves that a drop keeps the
  columns settled.
 */
module DropProofs {
  import opened Grid
  import opened Matches
  import opened Gravity
  import opened Game

  // ---------------------------------------------------------------------------
  // The shape of a drop, on plain boards
  // ---------------------------------------------------------------------------

  /** Every cell of `cleared` is a cell of the grid. */
  ghost predicate InBounds(cleared: set<Cell>, width: int, height: int) {
    forall d {:trigger d in cleared} :: d in cleared ==> InGrid(d, width, height)
  }

  /** `b` is settled and a letter dropped in column x comes to rest at row y: blank there, letters below. */
  ghost predicate Landed(b: Board, width: int, height: int, x: int, y: int)
    requires Total(b, width, height) && InGrid((x, y), width, height)
  {
    Settled(b, width, height) &&
    b[(x, y)] == Empty &&
    (forall r {:trigger b[(x, r)]} :: y < r < height ==> b[(x, r)] != Empty)
  }

  /** `m` is `b` with `letter` written at (x, y) and every cell of `cleared` blanked. */
  ghost predicate BlankedFrom(b: Board, width: int, height: int, x: int, y: int, letter: Letter, cleared: set<Cell>, m: Board)
    requires Total(b, width, height) && Total(m, width, height) && InBounds(cleared, width, height)
  {
    (forall d {:trigger d in cleared} :: d in cleared ==> m[d] == Empty) &&
    (forall c {:trigger m[c]} :: c in m && c !in cleared ==> m[c] == if c == (x, y) then Tile(letter) else b[c])
  }

  /** Outside column x, only cells of row y that held `letter` are cleared. */
  ghost predicate OffColumnCleared(b: Board, width: int, height: int, x: int, y: int, letter: Letter, cleared: set<Cell>)
    requires Total(b, width, height) && InBounds(cleared, width, height)
  {
    forall d {:trigger d in cleared} :: d in cleared && d.0 != x ==> d.1 == y && b[d] == Tile(letter)
  }

  /** In column x, cleared cells lie at or below row y and reach down from it without gaps. */
  ghost predicate ColumnCleared(x: int, y: int, cleared: set<Cell>) {
    (forall d {:trigger d in cleared} :: d in cleared && d.0 == x ==> y <= d.1) &&
    (forall d, r {:trigger (x, r) in cleared, d in cleared} :: d in cleared && d.0 == x && y <= r <= d.1 ==> (x, r) in cleared)
  }

  /**
    The facts about a drop the gravity proofs use: `b` is the settled board
    before the drop, the letter lands at (x, y), and `m` is the board once the
    letter is written and the cells of `cleared` are blanked.
   */
  ghost predicate DropShape(b: Board, width: int, height: int, x: int, y: int, letter: Letter, cleared: set<Cell>, m: Board)
  {
    Total(b, width, height) && Total(m, width, height) && InGrid((x, y), width, height) &&
    InBounds(cleared, width, height) &&
    Landed(b, width, height, x, y) &&
    BlankedFrom(b, width, height, x, y, letter, cleared, m) &&
    OffColumnCleared(b, width, height, x, y, letter, cleared) &&
    ColumnCleared(x, y, cleared)
  }

  /**
    The board a drop should leave, without reference to the order of the
    shifts: in the landing column everything from the top down to the lowest
    cleared cell is blank; in any other column holding a cleared cell, the
    cells from the top down to it slide down by one; every other cell holds
    what it held once the letter was written.
   */
  ghost function Settle(b: Board, width: int, height: int, x: int, y: int, letter: Letter, cleared: set<Cell>): (r: Board)
    requires Total(b, width, height)
    ensures Total(r, width, height)
  {
    map c | c in b :: SettleCell(b, width, height, x, y, letter, cleared, c)
  }

  /** One cell of Settle. */
  ghost function SettleCell(b: Board, width: int, height: int, x: int, y: int, letter: Letter, cleared: set<Cell>, c: Cell): Symbol
    requires Total(b, width, height) && c in b
  {
    if Lifted(cleared, c) then (if c.0 == x then Empty else Above(b, width, height, c))
    else if c == (x, y) then Tile(letter)
    else b[c]
  }

  /** The landing column is blank above the landing row. */
  lemma LandedAbove(b: Board, width: int, height: int, x: int, y: int, r: int)
    requires Total(b, width, height) && InGrid((x, y), width, height)
    requires Landed(b, width, height, x, y)
    requires 0 <= r < y
    ensures b[(x, r)] == Empty
  {
  }

  /** After clearing, the landing column is blank above every cleared cell in it. */
  lemma ShapeColumnBlank(b: Board, width: int, height: int, x: int, y: int, letter: Letter, cleared: set<Cell>, m: Board, d: Cell, r: int)
    requires DropShape(b, width, height, x, y, letter, cleared, m)
    requires d in cleared && d.0 == x && 0 <= r <= d.1
    ensures m[(x, r)] == Empty
  {
    if r < y {
      LandedAbove(b, width, height, x, y, r);
      if (x, r) !in cleared {
        assert m[(x, r)] == b[(x, r)];
      }
    } else {
      assert (x, r) in cleared;
    }
  }

  /** Two cleared cells share a column only in the landing column, which is blank down to each of them. */
  lemma ShapeStacked(b: Board, width: int, height: int, x: int, y: int, letter: Letter, cleared: set<Cell>, m: Board)
    requires DropShape(b, width, height, x, y, letter, cleared, m)
    ensures StackedBlank(m, width, height, cleared)
  {
    forall d1, d2 | d1 in cleared && d2 in cleared && d1 != d2 && d1.0 == d2.0
      ensures BlankDownTo(m, width, height, d1)
    {
      if d1.0 != x {
        assert false;
      }
      forall r | 0 <= r <= d1.1
        ensures m[(d1.0, r)] == Empty
      {
        ShapeColumnBlank(b, width, height, x, y, letter, cleared, m, d1, r);
      }
    }
  }

  /** Cell by cell, collapsing the cleared board gives the settled board. */
  lemma ShapeCollapseAt(b: Board, width: int, height: int, x: int, y: int, letter: Letter, cleared: set<Cell>, m: Board, c: Cell)
    requires DropShape(b, width, height, x, y, letter, cleared, m)
    requires c in b
    ensures Collapse(m, width, height, cleared)[c] == Settle(b, width, height, x, y, letter, cleared)[c]
  {
    if Lifted(cleared, c) {
      var d :| d in cleared && d.0 == c.0 && c.1 <= d.1;
      if c.0 == x {
        if c.1 > 0 {
          ShapeColumnBlank(b, width, height, x, y, letter, cleared, m, d, c.1 - 1);
        }
      } else if c.1 > 0 {
        var e := (c.0, c.1 - 1);
        assert e !in cleared;
        assert m[e] == b[e];
      }
    } else {
      assert c !in cleared;
    }
  }

  /** Collapsing the cleared board gives the settled board. */
  lemma ShapeCollapse(b: Board, width: int, height: int, x: int, y: int, letter: Letter, cleared: set<Cell>, m: Board)
    requires DropShape(b, width, height, x, y, letter, cleared, m)
    ensures Collapse(m, width, height, cleared) == Settle(b, width, height, x, y, letter, cleared)
  {
    var lhs := Collapse(m, width, height, cleared);
    var rhs := Settle(b, width, height, x, y, letter, cleared);
    forall c | c in b
      ensures lhs[c] == rhs[c]
    {
      ShapeCollapseAt(b, width, height, x, y, letter, cleared, m, c);
    }
    assert lhs.Keys == rhs.Keys;
  }

  /** In the landing column, a blank on the settled board has only blanks above it. */
  lemma SettleSettledInColumn(b: Board, width: int, height: int, x: int, y: int, letter: Letter, cleared: set<Cell>, above: int, below: int)
    requires Total(b, width, height) && InGrid((x, y), width, height)
    requires Landed(b, width, height, x, y)
    requires 0 <= above < below < height
    requires SettleCell(b, width, height, x, y, letter, cleared, (x, below)) == Empty
    ensures SettleCell(b, width, height, x, y, letter, cleared, (x, above)) == Empty
  {
    if Lifted(cleared, (x, below)) {
      LiftedUpward(cleared, (x, below), above);
    } else if !Lifted(cleared, (x, above)) {
      assert below < y;
      LandedAbove(b, width, height, x, y, above);
    }
  }

  /** In a column that holds no cleared cell, the settled board is the board before the drop. */
  lemma SettleUntouchedColumn(b: Board, width: int, height: int, x: int, y: int, letter: Letter, cleared: set<Cell>, col: int, r: int)
    requires Total(b, width, height) && InBounds(cleared, width, height)
    requires OffColumnCleared(b, width, height, x, y, letter, cleared)
    requires 0 <= col < width && col != x && (col, y) !in cleared && 0 <= r < height
    ensures SettleCell(b, width, height, x, y, letter, cleared, (col, r)) == b[(col, r)]
  {
  }

  /** In a column where a landing-row cell was cleared, the settled board is that column shifted down to the landing row. */
  lemma SettleShiftedColumn(b: Board, width: int, height: int, x: int, y: int, letter: Letter, cleared: set<Cell>, col: int, r: int)
    requires Total(b, width, height) && InBounds(cleared, width, height)
    requires OffColumnCleared(b, width, height, x, y, letter, cleared)
    requires 0 <= col < width && col != x && (col, y) in cleared && 0 <= r < height
    ensures SettleCell(b, width, height, x, y, letter, cleared, (col, r)) ==
      if r <= y then Above(b, width, height, (col, r)) else b[(col, r)]
  {
    if r <= y {
      assert (col, y).0 == col && r <= (col, y).1;
      assert Lifted(cleared, (col, r));
    }
  }

  /**
    A settled column shifted down by one from the top to row y, where it
    held a letter, has only blanks above a blank at or above row y.
   */
  lemma ShiftedColumnSettled(b: Board, width: int, height: int, col: int, y: int, above: int, below: int)
    requires Total(b, width, height) && Settled(b, width, height)
    requires 0 <= col < width && 0 <= above < below <= y < height
    requires Above(b, width, height, (col, below)) == Empty
    ensures Above(b, width, height, (col, above)) == Empty
  {
    assert b[(col, below - 1)] == Empty;
    if above > 0 {
      assert b[(col, above - 1)] == Empty;
    }
  }

  /** A settled column with a letter in row y holds letters all the way below it. */
  lemma SettledBelowLetter(b: Board, width: int, height: int, col: int, y: int, r: int)
    requires Total(b, width, height) && Settled(b, width, height)
    requires 0 <= col < width && 0 <= y < r < height
    requires b[(col, y)] != Empty
    ensures b[(col, r)] != Empty
  {
  }

  /** Outside the landing column, a blank on the settled board has only blanks above it. */
  lemma SettleSettledOffColumn(b: Board, width: int, height: int, x: int, y: int, letter: Letter, cleared: set<Cell>, col: int, above: int, below: int)
    requires Total(b, width, height) && InBounds(cleared, width, height) && 0 <= y < height
    requires Settled(b, width, height)
    requires OffColumnCleared(b, width, height, x, y, letter, cleared)
    requires 0 <= col < width && col != x
    requires 0 <= above < below < height
    requires SettleCell(b, width, height, x, y, letter, cleared, (col, below)) == Empty
    ensures SettleCell(b, width, height, x, y, letter, cleared, (col, above)) == Empty
  {
    if (col, y) in cleared {
      SettleShiftedColumn(b, width, height, x, y, letter, cleared, col, below);
      SettleShiftedColumn(b, width, height, x, y, letter, cleared, col, above);
      if below <= y {
        ShiftedColumnSettled(b, width, height, col, y, above, below);
      } else {
        SettledBelowLetter(b, width, height, col, y, below);
      }
    } else {
      SettleUntouchedColumn(b, width, height, x, y, letter, cleared, col, below);
      SettleUntouchedColumn(b, width, height, x, y, letter, cleared, col, above);
    }
  }

  /** One instance of settledness of the settled board. */
  lemma SettleSettledAt(b: Board, width: int, height: int, x: int, y: int, letter: Letter, cleared: set<Cell>, m: Board, col: int, above: int, below: int)
    requires DropShape(b, width, height, x, y, letter, cleared, m)
    requires 0 <= col < width && 0 <= above < below < height
    requires SettleCell(b, width, height, x, y, letter, cleared, (col, below)) == Empty
    ensures SettleCell(b, width, height, x, y, letter, cleared, (col, above)) == Empty
  {
    if col == x {
      SettleSettledInColumn(b, width, height, x, y, letter, cleared, above, below);
    } else {
      SettleSettledOffColumn(b, width, height, x, y, letter, cleared, col, above, below);
    }
  }

  /** The settled board has settled columns. */
  lemma SettleSettled(b: Board, width: int, height: int, x: int, y: int, letter: Letter, cleared: set<Cell>, m: Board)
    requires DropShape(b, width, height, x, y, letter, cleared, m)
    ensures Settled(Settle(b, width, height, x, y, letter, cleared), width, height)
  {
    var s := Settle(b, width, height, x, y, letter, cleared);
    forall col, above, below | 0 <= col < width && 0 <= above < below < height && s[(col, below)] == Empty
      ensures s[(col, above)] == Empty
    {
      SettleSettledAt(b, width, height, x, y, letter, cleared, m, col, above, below);
    }
  }

  // ---------------------------------------------------------------------------
  // A drop in a game has that shape
  // ---------------------------------------------------------------------------

  /** The board with the current letter written at its landing row, before any clearing. */
  ghost function Placed(g: Game): (b: Board)
    requires WellFormed(g) && Landing(g) >= 0
    ensures Total(b, g.width, g.height)
  {
    var b := g.board[(g.cursor, Landing(g)) := Tile(g.currentLetter)];
    assert b.Keys == g.board.Keys;
    b
  }

  /** The cells a drop clears. */
  ghost function Cleared(g: Game): set<Cell>
    requires WellFormed(g)
  {
    PlaceAndClear(g).destroyed
  }

  /** The board a drop in game g should leave. */
  ghost function Expected(g: Game): (b: Board)
    requires WellFormed(g) && Landing(g) >= 0
    ensures Total(b, g.width, g.height)
  {
    Settle(g.board, g.width, g.height, g.cursor, Landing(g), g.currentLetter, Cleared(g))
  }

  /** The clearing in a drop is the clearing of the board with the letter written. */
  lemma PlaceAndClearUnfold(g: Game)
    requires WellFormed(g) && Landing(g) >= 0
    ensures PlaceAndClear(g) ==
      DestroyMatches(Placed(g), g.width, g.height, g.destroyCount, g.cursor, Landing(g), g.currentLetter)
  {
  }

  /** A cleared cell outside the cursor column lies on the landing row and held the dropped letter. */
  lemma ClearedOffColumn(g: Game, d: Cell)
    requires WellFormed(g) && Landing(g) >= 0
    requires d in Cleared(g) && d.0 != g.cursor
    ensures d.1 == Landing(g) && g.board[d] == Tile(g.currentLetter)
  {
    PlaceAndClearUnfold(g);
    DestroyedOffColumn(Placed(g), g.width, g.height, g.destroyCount, g.cursor, Landing(g), g.currentLetter, d);
  }

  /** A cleared cell in the cursor column lies at or below the landing row. */
  lemma ClearedInColumnBelow(g: Game, d: Cell)
    requires WellFormed(g) && Landing(g) >= 0
    requires d in Cleared(g) && d.0 == g.cursor
    ensures d.1 >= Landing(g)
  {
    PlaceAndClearUnfold(g);
    DestroyedInColumn(Placed(g), g.width, g.height, g.destroyCount, g.cursor, Landing(g), g.currentLetter, d);
  }

  /** A cleared cell in the cursor column brings every cell between it and the landing row along. */
  lemma ClearedColumnPrefix(g: Game, d: Cell, r: int)
    requires WellFormed(g) && Landing(g) >= 0
    requires d in Cleared(g) && d.0 == g.cursor && Landing(g) <= r <= d.1
    ensures (g.cursor, r) in Cleared(g)
  {
    PlaceAndClearUnfold(g);
    DestroyedColumnPrefix(Placed(g), g.width, g.height, g.destroyCount, g.cursor, Landing(g), g.currentLetter, d, r);
  }

  /** The clearing leaves a blank on each cleared cell and the placed board elsewhere. */
  lemma ClearedBoard(g: Game)
    requires WellFormed(g) && Landing(g) >= 0
    ensures forall d :: d in Cleared(g) ==> InGrid(d, g.width, g.height) && PlaceAndClear(g).board[d] == Empty
    ensures forall c :: c in PlaceAndClear(g).board && c !in Cleared(g) ==>
      PlaceAndClear(g).board[c] == if c == (g.cursor, Landing(g)) then Tile(g.currentLetter) else g.board[c]
  {
    PlaceAndClearUnfold(g);
  }

  /** Every drop that lands has the shape the gravity proofs use. */
  lemma DropHasShape(g: Game)
    requires Valid(g) && Landing(g) >= 0
    ensures DropShape(g.board, g.width, g.height, g.cursor, Landing(g), g.currentLetter, Cleared(g), PlaceAndClear(g).board)
  {
    var x, y := g.cursor, Landing(g);
    var cleared := Cleared(g);
    ClearedBoard(g);
    forall d | d in cleared && d.0 != x
      ensures d.1 == y && g.board[d] == Tile(g.currentLetter)
    {
      ClearedOffColumn(g, d);
    }
    forall d | d in cleared && d.0 == x
      ensures y <= d.1
    {
      ClearedInColumnBelow(g, d);
    }
    forall d, r | d in cleared && d.0 == x && y <= r <= d.1
      ensures (x, r) in cleared
    {
      ClearedColumnPrefix(g, d, r);
    }
  }

  // ---------------------------------------------------------------------------
  // The board after a drop
  // ---------------------------------------------------------------------------

  /** However the cleared set is iterated, the drop leaves the expected board. */
  lemma DropAnyOrderIsExpected(g: Game, order: seq<Cell>)
    requires Valid(g) && Landing(g) >= 0
    requires Enumerates(order, Cleared(g))
    ensures DropAllSupported(PlaceAndClear(g).board, g.width, g.height, order) == Expected(g)
  {
    var m := PlaceAndClear(g).board;
    var x, y, letter, cleared := g.cursor, Landing(g), g.currentLetter, Cleared(g);
    DropHasShape(g);
    ShapeStacked(g.board, g.width, g.height, x, y, letter, cleared, m);
    DropAllIsCollapse(m, g.width, g.height, cleared, order);
    ShapeCollapse(g.board, g.width, g.height, x, y, letter, cleared, m);
  }

  /** The board a drop leaves is the expected board. */
  lemma DropLetterBoard(g: Game, next: Letter)
    requires Valid(g) && Landing(g) >= 0
    ensures DropLetter(g, next).board == Expected(g)
  {
    DropAnyOrderIsExpected(g, IterationOrder(Cleared(g)));
  }

  /** The order in which the cleared set is iterated does not change the board a drop leaves. */
  lemma DropLetterAnyOrder(g: Game, next: Letter, order: seq<Cell>)
    requires Valid(g) && Landing(g) >= 0
    requires Enumerates(order, Cleared(g))
    ensures DropAllSupported(PlaceAndClear(g).board, g.width, g.height, order) == DropLetter(g, next).board
  {
    DropAnyOrderIsExpected(g, order);
    DropLetterBoard(g, next);
  }

  /** A drop keeps the game valid: the board stays full and settled, the cursor on a column, the score non-negative. */
  lemma DropLetterKeepsValid(g: Game, next: Letter)
    requires Valid(g)
    ensures Valid(DropLetter(g, next))
  {
    if Landing(g) >= 0 {
      DropLetterBoard(g, next);
      DropHasShape(g);
      SettleSettled(g.board, g.width, g.height, g.cursor, Landing(g), g.currentLetter, Cleared(g), PlaceAndClear(g).board);
    }
  }
}
