/**
  The letter grid of the falling-letter game: letters, cell symbols, cells and
  the board that maps every cell of a width x height grid to its symbol.
  Row 0 is the top of the grid and row height-1 the bottom, where a dropped
  letter lands first.
 */
module Grid {

  /** The fixed alphabet a falling letter is drawn from. */
  datatype Letter = A | B | C

  /** What a cell holds: the blank marker "_" or a letter. */
  datatype Symbol = Empty | Tile(letter: Letter)

  /** A cell coordinate: (column, row). */
  type Cell = (int, int)

  type Board = map<Cell, Symbol>

  predicate InGrid(c: Cell, width: int, height: int) {
    0 <= c.0 < width && 0 <= c.1 < height
  }

  /** The board has an entry for exactly the cells of the grid, no more, no fewer. */
  ghost predicate Total(b: Board, width: int, height: int) {
    forall c :: c in b <==> InGrid(c, width, height)
  }

  /** No blank cell lies below a letter in the same column: the columns have settled. */
  ghost predicate Settled(b: Board, width: int, height: int)
    requires Total(b, width, height)
  {
    forall x, above, below {:trigger b[(x, below)], b[(x, above)]} ::
      0 <= x < width && 0 <= above < below < height && b[(x, below)] == Empty ==> b[(x, above)] == Empty
  }

  /** The fresh board: every cell of the grid present and blank. */
  function BuildBoard(width: nat, height: nat): (b: Board)
    ensures Total(b, width, height)
    ensures forall c :: c in b ==> b[c] == Empty
    ensures Settled(b, width, height)
  {
    map i, j | 0 <= i < width && 0 <= j < height :: (i, j) := Empty
  }

  /** The cells a list holds, as a set. */
  function Elements(s: seq<Cell>): set<Cell> {
    set c | c in s
  }

  /** No cell occurs twice in the list. */
  predicate Distinct(s: seq<Cell>) {
    forall i, j :: 0 <= i < j < |s| ==> s[i] != s[j]
  }

  /** `order` lists every cell of `s` exactly once: one possible iteration order of the set. */
  predicate Enumerates(order: seq<Cell>, s: set<Cell>) {
    Distinct(order) && Elements(order) == s
  }

  /** Listing a first cell in front of an enumeration of the other cells enumerates the whole set. */
  lemma EnumeratesCons(d: Cell, rest: seq<Cell>, s: set<Cell>)
    requires d in s && Enumerates(rest, s - {d})
    ensures Enumerates([d] + rest, s)
  {
    var order := [d] + rest;
    forall i, j | 0 <= i < j < |order|
      ensures order[i] != order[j]
    {
      assert order[j] == rest[j - 1];
      if i > 0 {
        assert order[i] == rest[i - 1];
      } else {
        assert order[j] in Elements(rest);
      }
    }
    assert Elements(order) == {d} + Elements(rest);
  }

  /** What remains after the first cell of an enumeration enumerates the rest of the set. */
  lemma EnumeratesTail(order: seq<Cell>, s: set<Cell>)
    requires Enumerates(order, s) && order != []
    ensures order[0] in s && Enumerates(order[1..], s - {order[0]})
  {
    var rest := order[1..];
    forall i, j | 0 <= i < j < |rest|
      ensures rest[i] != rest[j]
    {
      assert rest[i] == order[i + 1] && rest[j] == order[j + 1];
    }
    forall e | e in rest
      ensures e in s - {order[0]}
    {
      var j :| 0 <= j < |rest| && rest[j] == e;
      assert order[j + 1] == e;
    }
    forall e | e in s - {order[0]}
      ensures e in rest
    {
      var j :| 0 <= j < |order| && order[j] == e;
      assert rest[j - 1] == e;
    }
  }

  /** A list without repetitions has as many cells as the set of its cells. */
  lemma {:induction false} DistinctCount(s: seq<Cell>)
    requires Distinct(s)
    ensures |Elements(s)| == |s|
  {
    if s != [] {
      DistinctCount(s[1..]);
      assert Elements(s) == {s[0]} + Elements(s[1..]);
      assert s[0] !in Elements(s[1..]) by {
        forall j | 0 <= j < |s[1..]|
          ensures s[1..][j] != s[0]
        {
          assert s[1..][j] == s[j + 1];
        }
      }
    }
  }
}
