/**
  The game state and its transitions: a fresh game, cursor moves, and the
  drop of the current letter (landing search, clearing, score, gravity).
 */
module Game {
  import opened Grid
  import opened Matches
  import opened Gravity

  /**
    The state of one game. `turn` is set when the game starts and no
    operation changes it.
   */
  datatype Game = Game(
    width: nat,
    height: nat,
    destroyCount: int,
    board: Board,
    cursor: int,
    currentLetter: Letter,
    turn: int,
    score: int)

  /** The shape every operation relies on: a full board and the cursor on a column. */
  ghost predicate WellFormed(g: Game) {
    Total(g.board, g.width, g.height) && 0 <= g.cursor < g.width
  }

  /** What holds in every state a game can reach: well formed, settled columns, no negative score. */
  ghost predicate Valid(g: Game) {
    WellFormed(g) && Settled(g.board, g.width, g.height) && g.score >= 0
  }

  /** A new game: blank board, cursor on the middle column, turn and score zero, `first` as the current letter. */
  function NewGame(width: nat, height: nat, destroyCount: int, first: Letter): (g: Game)
    ensures Total(g.board, width, height) && forall c :: c in g.board ==> g.board[c] == Empty
    ensures width >= 1 ==> Valid(g)
    ensures g == Game(width, height, destroyCount, g.board, width / 2, first, 0, 0)
  {
    Game(width, height, destroyCount, BuildBoard(width, height), width / 2, first, 0, 0)
  }

  // ---------------------------------------------------------------------------
  // Cursor
  // ---------------------------------------------------------------------------

  /** Move the cursor one column left, staying put at the left edge. */
  function CursorLeft(g: Game): (g': Game)
    requires 0 <= g.cursor <= g.width - 1
    ensures 0 <= g'.cursor <= g'.width - 1
    ensures g.cursor == 0 ==> g' == g
    ensures g.cursor > 0 ==> g'.cursor == g.cursor - 1
    ensures g' == g.(cursor := g'.cursor)
    ensures Valid(g) ==> Valid(g')
  {
    if g.cursor == 0 then g else g.(cursor := g.cursor - 1)
  }

  /** Move the cursor one column right, staying put at the right edge. */
  function CursorRight(g: Game): (g': Game)
    requires 0 <= g.cursor <= g.width - 1
    ensures 0 <= g'.cursor <= g'.width - 1
    ensures g.cursor == g.width - 1 ==> g' == g
    ensures g.cursor < g.width - 1 ==> g'.cursor == g.cursor + 1
    ensures g' == g.(cursor := g'.cursor)
    ensures Valid(g) ==> Valid(g')
  {
    if g.cursor == g.width - 1 then g else g.(cursor := g.cursor + 1)
  }

  /** Away from the left edge, a move left is undone by a move right. */
  lemma CursorRightUndoesLeft(g: Game)
    requires 0 < g.cursor <= g.width - 1
    ensures CursorRight(CursorLeft(g)) == g
  {
  }

  /** Away from the right edge, a move right is undone by a move left. */
  lemma CursorLeftUndoesRight(g: Game)
    requires 0 <= g.cursor < g.width - 1
    ensures CursorLeft(CursorRight(g)) == g
  {
  }

  // ---------------------------------------------------------------------------
  // Landing
  // ---------------------------------------------------------------------------

  /**
    The scan up column x from row `yCheck` for a blank: the first blank row
    met, every row passed over holding a letter, or -1 when there is none.
   */
  function LandingRow(b: Board, width: int, height: int, x: int, yCheck: int): (y: int)
    requires Total(b, width, height) && 0 <= x < width && -1 <= yCheck < height
    ensures -1 <= y <= yCheck
    ensures y >= 0 ==> b[(x, y)] == Empty
    ensures forall r {:trigger b[(x, r)]} :: y < r <= yCheck ==> b[(x, r)] != Empty
    decreases yCheck + 1
  {
    if yCheck >= 0 && b[(x, yCheck)] != Empty then LandingRow(b, width, height, x, yCheck - 1) else yCheck
  }

  /** Every cell of the cursor column holds a letter. */
  ghost predicate ColumnFull(g: Game)
    requires WellFormed(g)
  {
    forall r {:trigger g.board[(g.cursor, r)]} :: 0 <= r < g.height ==> g.board[(g.cursor, r)] != Empty
  }

  /** The row where the current letter comes to rest in the cursor column, or -1 when the column is full. */
  function Landing(g: Game): (y: int)
    requires WellFormed(g)
    ensures -1 <= y < g.height
    ensures y == -1 <==> ColumnFull(g)
    ensures y >= 0 ==> g.board[(g.cursor, y)] == Empty
    ensures forall r {:trigger g.board[(g.cursor, r)]} :: y < r < g.height ==> g.board[(g.cursor, r)] != Empty
  {
    LandingRow(g.board, g.width, g.height, g.cursor, g.height - 1)
  }

  // ---------------------------------------------------------------------------
  // Drop
  // ---------------------------------------------------------------------------

  /**
    The current letter written at its landing row and the runs through it
    cleared, with the cells cleared; on a full column, the board as it was
    and nothing cleared.
   */
  function PlaceAndClear(g: Game): (r: Clearing)
    requires WellFormed(g)
    ensures Total(r.board, g.width, g.height)
    ensures ColumnFull(g) ==> r == Clearing(g.board, {})
    ensures forall c :: c in r.destroyed ==> InGrid(c, g.width, g.height)
  {
    var y := Landing(g);
    if y < 0 then Clearing(g.board, {})
    else
      var placed := g.board[(g.cursor, y) := Tile(g.currentLetter)];
      assert placed.Keys == g.board.Keys;
      DestroyMatches(placed, g.width, g.height, g.destroyCount, g.cursor, y, g.currentLetter)
  }

  /**
    Drop the current letter in the cursor column. On a full column nothing
    changes. Otherwise the letter lands, the runs through it at or over the
    threshold are cleared, the score grows by ten per cleared cell, `next`
    becomes the current letter, and each cleared cell's column shifts down
    over it, in the order the cleared set happens to be iterated.
   */
  ghost function DropLetter(g: Game, next: Letter): (g': Game)
    requires WellFormed(g)
    ensures WellFormed(g')
    ensures g'.width == g.width && g'.height == g.height && g'.destroyCount == g.destroyCount
    ensures g'.cursor == g.cursor && g'.turn == g.turn
    ensures ColumnFull(g) ==> g' == g
    ensures !ColumnFull(g) ==> g'.currentLetter == next
    ensures g'.score == g.score + 10 * |PlaceAndClear(g).destroyed|
  {
    if Landing(g) < 0 then g
    else
      var m := PlaceAndClear(g);
      g.(board := DropAllSupported(m.board, g.width, g.height, IterationOrder(m.destroyed)),
         score := g.score + 10 * |m.destroyed|,
         currentLetter := next)
  }
}
