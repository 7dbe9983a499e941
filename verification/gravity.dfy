/**
  Gravity after a clearing: the one-cell shift that closes the gap left by one
  cleared cell, applied once per cleared cell in the order the cleared set
  happens to be iterated, and a reference definition of the settled result
  that does not depend on that order.
 */
module Gravity {
  import opened Grid

  /** The symbol that moves into cell c when its column shifts down by one: the one above it, or a blank at the top row. */
  function Above(b: Board, width: int, height: int, c: Cell): Symbol
    requires Total(b, width, height) && InGrid(c, width, height)
  {
    if c.1 == 0 then Empty else b[(c.0, c.1 - 1)]
  }

  /** The copy loop of the shift: rows curr, curr-1, ..., 1 of column x each take the symbol of the row above, bottom row first. */
  function ShiftDown(b: Board, width: int, height: int, x: int, curr: int): (r: Board)
    requires Total(b, width, height) && 0 <= x < width && 0 <= curr < height
    ensures r.Keys == b.Keys
    decreases curr
  {
    if curr - 1 >= 0 then ShiftDown(b[(x, curr) := b[(x, curr - 1)]], width, height, x, curr - 1) else b
  }

  /** Because the copy loop runs bottom first, each row reads the row above before that row is overwritten. */
  lemma {:induction false} ShiftDownAt(b: Board, width: int, height: int, x: int, curr: int, c: Cell)
    requires Total(b, width, height) && 0 <= x < width && 0 <= curr < height && c in b
    ensures ShiftDown(b, width, height, x, curr)[c] == if c.0 == x && 0 < c.1 <= curr then b[(x, c.1 - 1)] else b[c]
    decreases curr
  {
    if curr - 1 >= 0 {
      var b' := b[(x, curr) := b[(x, curr - 1)]];
      assert b'.Keys == b.Keys;
      assert ShiftDown(b, width, height, x, curr) == ShiftDown(b', width, height, x, curr - 1);
      ShiftDownAt(b', width, height, x, curr - 1, c);
      if c.0 == x && 0 < c.1 < curr {
        assert b'[(x, c.1 - 1)] == b[(x, c.1 - 1)];
      }
    }
  }

  /** The shift of a whole column, cell by cell. */
  lemma ShiftDownMoves(b: Board, width: int, height: int, x: int, curr: int)
    requires Total(b, width, height) && 0 <= x < width && 0 <= curr < height
    ensures forall c :: c in b ==>
      ShiftDown(b, width, height, x, curr)[c] == if c.0 == x && 0 < c.1 <= curr then b[(x, c.1 - 1)] else b[c]
  {
    forall c | c in b
      ensures ShiftDown(b, width, height, x, curr)[c] == if c.0 == x && 0 < c.1 <= curr then b[(x, c.1 - 1)] else b[c]
    {
      ShiftDownAt(b, width, height, x, curr, c);
    }
  }

  /**
    Close the gap at `cell`: every row of its column from the top down to the
    cell takes the symbol above it, and the top row becomes blank. Other
    columns and the rows below the cell keep their symbols.
   */
  function DropSupported(b: Board, width: int, height: int, cell: Cell): (r: Board)
    requires Total(b, width, height) && InGrid(cell, width, height)
    ensures Total(r, width, height)
    ensures forall c :: c in r ==> r[c] == if c.0 == cell.0 && c.1 <= cell.1 then Above(b, width, height, c) else b[c]
  {
    ShiftDownMoves(b, width, height, cell.0, cell.1);
    ShiftDown(b, width, height, cell.0, cell.1)[(cell.0, 0) := Empty]
  }

  /** One shift per cell of `order`, in that order. */
  function DropAllSupported(b: Board, width: int, height: int, order: seq<Cell>): (r: Board)
    requires Total(b, width, height)
    requires forall d :: d in order ==> InGrid(d, width, height)
    ensures Total(r, width, height)
  {
    if order == [] then b
    else DropAllSupported(DropSupported(b, width, height, order[0]), width, height, order[1..])
  }

  /**
    The order in which a set of cells is iterated: every cell once, in an
    order that is fixed by the set but otherwise left unspecified.
   */
  ghost function IterationOrder(s: set<Cell>): (order: seq<Cell>)
    ensures Enumerates(order, s)
    decreases |s|
  {
    if s == {} then []
    else
      var d :| d in s;
      var rest := IterationOrder(s - {d});
      EnumeratesCons(d, rest, s);
      [d] + rest
  }

  // ---------------------------------------------------------------------------
  // The settled result, independent of order
  // ---------------------------------------------------------------------------

  /** Cell c lies in a column that holds a cleared cell at or below c. */
  ghost predicate Lifted(cleared: set<Cell>, c: Cell) {
    exists d :: d in cleared && d.0 == c.0 && c.1 <= d.1
  }

  /** Removing a cleared cell that is not at or below c from the set does not change whether c is lifted. */
  lemma LiftedWithout(cleared: set<Cell>, d: Cell, c: Cell)
    requires !(c.0 == d.0 && c.1 <= d.1)
    ensures Lifted(cleared - {d}, c) == Lifted(cleared, c)
  {
    if Lifted(cleared, c) {
      var e :| e in cleared && e.0 == c.0 && c.1 <= e.1;
      assert e in cleared - {d};
    }
  }

  /** A cell above a lifted cell of the same column is lifted too. */
  lemma LiftedUpward(cleared: set<Cell>, c: Cell, r: int)
    requires Lifted(cleared, c) && r <= c.1
    ensures Lifted(cleared, (c.0, r))
  {
    var d :| d in cleared && d.0 == c.0 && c.1 <= d.1;
    assert d.0 == (c.0, r).0 && (c.0, r).1 <= d.1;
  }

  /** Every cell at or above a cleared cell moves down by one; the rest stay. */
  ghost function Collapse(b: Board, width: int, height: int, cleared: set<Cell>): (r: Board)
    requires Total(b, width, height)
    ensures Total(r, width, height)
  {
    map c | c in b :: if Lifted(cleared, c) then Above(b, width, height, c) else b[c]
  }

  /**
    Where two cleared cells share a column, that column is blank from the top
    down to each of them, so shifting it any number of times changes nothing.
   */
  ghost predicate StackedBlank(b: Board, width: int, height: int, cleared: set<Cell>)
    requires Total(b, width, height)
    requires forall d :: d in cleared ==> InGrid(d, width, height)
  {
    forall d1, d2 {:trigger d1 in cleared, d2 in cleared} :: d1 in cleared && d2 in cleared && d1 != d2 && d1.0 == d2.0 ==> BlankDownTo(b, width, height, d1)
  }

  /** Column d.0 is blank from the top row down to row d.1. */
  ghost predicate BlankDownTo(b: Board, width: int, height: int, d: Cell)
    requires Total(b, width, height) && InGrid(d, width, height)
  {
    forall r {:trigger b[(d.0, r)]} :: 0 <= r <= d.1 ==> b[(d.0, r)] == Empty
  }

  /** Shifting a column that is blank from the top down to the cell leaves the board as it was. */
  lemma DropSupportedOnBlank(b: Board, width: int, height: int, cell: Cell)
    requires Total(b, width, height) && InGrid(cell, width, height)
    requires BlankDownTo(b, width, height, cell)
    ensures DropSupported(b, width, height, cell) == b
  {
    var r := DropSupported(b, width, height, cell);
    forall c | c in b
      ensures r[c] == b[c]
    {
      if c.0 == cell.0 && 0 < c.1 <= cell.1 {
        assert b[(c.0, c.1 - 1)] == Empty;
      }
    }
  }

  /** A cleared cell alone in its column: its shift turns Collapse of the rest into Collapse of all. */
  lemma CollapseLoneCell(b: Board, width: int, height: int, cleared: set<Cell>, d: Cell)
    requires Total(b, width, height)
    requires forall e :: e in cleared ==> InGrid(e, width, height)
    requires d in cleared
    requires forall e {:trigger e in cleared} :: e in cleared && e.0 == d.0 ==> e == d
    ensures Collapse(DropSupported(b, width, height, d), width, height, cleared - {d}) == Collapse(b, width, height, cleared)
  {
    var b' := DropSupported(b, width, height, d);
    var lhs := Collapse(b', width, height, cleared - {d});
    var rhs := Collapse(b, width, height, cleared);
    forall c | c in b
      ensures lhs[c] == rhs[c]
    {
      if c.0 == d.0 {
        assert !Lifted(cleared - {d}, c);
        assert Lifted(cleared, c) <==> c.1 <= d.1;
      } else {
        assert Lifted(cleared - {d}, c) <==> Lifted(cleared, c);
        if c.1 > 0 {
          assert b'[(c.0, c.1 - 1)] == b[(c.0, c.1 - 1)];
        }
      }
    }
  }

  /** A cleared cell sharing its column with another: dropping it from the set leaves Collapse as it was. */
  lemma CollapseStackedCell(b: Board, width: int, height: int, cleared: set<Cell>, d: Cell)
    requires Total(b, width, height)
    requires forall e :: e in cleared ==> InGrid(e, width, height)
    requires d in cleared && BlankDownTo(b, width, height, d)
    ensures Collapse(b, width, height, cleared - {d}) == Collapse(b, width, height, cleared)
  {
    var lhs := Collapse(b, width, height, cleared - {d});
    var rhs := Collapse(b, width, height, cleared);
    forall c | c in b
      ensures lhs[c] == rhs[c]
    {
      CollapseStackedCellAt(b, width, height, cleared, d, c);
    }
    assert lhs.Keys == rhs.Keys;
  }

  /** The cell-by-cell step of CollapseStackedCell. */
  lemma CollapseStackedCellAt(b: Board, width: int, height: int, cleared: set<Cell>, d: Cell, c: Cell)
    requires Total(b, width, height)
    requires forall e :: e in cleared ==> InGrid(e, width, height)
    requires d in cleared && BlankDownTo(b, width, height, d)
    requires c in b
    ensures Collapse(b, width, height, cleared - {d})[c] == Collapse(b, width, height, cleared)[c]
  {
    if c.0 == d.0 && c.1 <= d.1 {
      assert b[(c.0, c.1)] == Empty;
      if c.1 > 0 {
        assert b[(c.0, c.1 - 1)] == Empty;
      }
    } else {
      LiftedWithout(cleared, d, c);
    }
  }

  /** Shifting the column of a cleared cell that is alone in its column keeps the other stacked cells blank above. */
  lemma StackedBlankAfterLoneCell(b: Board, width: int, height: int, cleared: set<Cell>, d: Cell)
    requires Total(b, width, height)
    requires forall e :: e in cleared ==> InGrid(e, width, height)
    requires d in cleared && StackedBlank(b, width, height, cleared)
    requires forall e {:trigger e in cleared} :: e in cleared && e.0 == d.0 ==> e == d
    ensures StackedBlank(DropSupported(b, width, height, d), width, height, cleared - {d})
  {
    var b' := DropSupported(b, width, height, d);
    forall d1, d2 | d1 in cleared - {d} && d2 in cleared - {d} && d1 != d2 && d1.0 == d2.0
      ensures BlankDownTo(b', width, height, d1)
    {
      assert d1.0 != d.0;
      assert BlankDownTo(b, width, height, d1);
    }
  }

  /**
    Applying the shifts in any order that lists each cleared cell once gives
    the collapsed board, provided stacked cleared cells have only blanks above.
   */
  lemma {:induction false} DropAllIsCollapse(b: Board, width: int, height: int, cleared: set<Cell>, order: seq<Cell>)
    requires Total(b, width, height)
    requires forall d :: d in cleared ==> InGrid(d, width, height)
    requires Enumerates(order, cleared)
    requires StackedBlank(b, width, height, cleared)
    ensures DropAllSupported(b, width, height, order) == Collapse(b, width, height, cleared)
    decreases |order|
  {
    if order == [] {
      assert cleared == {};
      var r := Collapse(b, width, height, cleared);
      assert forall c :: c in b ==> r[c] == b[c];
    } else {
      var d := order[0];
      var rest := order[1..];
      EnumeratesTail(order, cleared);
      var b' := DropSupported(b, width, height, d);
      assert DropAllSupported(b, width, height, order) == DropAllSupported(b', width, height, rest);
      if e :| e in cleared && e != d && e.0 == d.0 {
        assert BlankDownTo(b, width, height, d);
        DropSupportedOnBlank(b, width, height, d);
        CollapseStackedCell(b, width, height, cleared, d);
        DropAllIsCollapse(b, width, height, cleared - {d}, rest);
      } else {
        StackedBlankAfterLoneCell(b, width, height, cleared, d);
        CollapseLoneCell(b, width, height, cleared, d);
        DropAllIsCollapse(b', width, height, cleared - {d}, rest);
      }
    }
  }

  /** The board after gravity does not depend on the order in which the cleared set is iterated. */
  lemma DropAllOrderIrrelevant(b: Board, width: int, height: int, cleared: set<Cell>, order1: seq<Cell>, order2: seq<Cell>)
    requires Total(b, width, height)
    requires forall d :: d in cleared ==> InGrid(d, width, height)
    requires Enumerates(order1, cleared) && Enumerates(order2, cleared)
    requires StackedBlank(b, width, height, cleared)
    ensures DropAllSupported(b, width, height, order1) == DropAllSupported(b, width, height, order2)
  {
    DropAllIsCollapse(b, width, height, cleared, order1);
    DropAllIsCollapse(b, width, height, cleared, order2);
  }
}
