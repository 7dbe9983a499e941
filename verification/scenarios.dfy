/**
  A worked game: on a board five columns wide and one row high, with runs
  of three cleared, the letter A dropped into columns 0, 1 and 2 fills a run
  of three, which is cleared for thirty points and leaves the board blank.
 */
module Scenarios {
  import opened Grid
  import opened Matches
  import opened Gravity
  import opened Game
  import opened DropProofs
  import opened Play

  /** What column x of the row holds once `filled` letters A have been dropped from the left. */
  function RowCell(filled: int, x: int): Symbol {
    if x < filled then Tile(A) else Empty
  }

  /** A one-row board of width five holding A in the columns below `filled` and blanks elsewhere. */
  function RowOfA(filled: int): (b: Board)
    ensures Total(b, 5, 1)
    ensures forall x :: 0 <= x < 5 ==> b[(x, 0)] == RowCell(filled, x)
  {
    var b := map[(0, 0) := RowCell(filled, 0), (1, 0) := RowCell(filled, 1), (2, 0) := RowCell(filled, 2),
                 (3, 0) := RowCell(filled, 3), (4, 0) := RowCell(filled, 4)];
    assert forall c :: InGrid(c, 5, 1) ==> c in b by {
      forall c | InGrid(c, 5, 1)
        ensures c in b
      {
        assert c == (c.0, 0);
      }
    }
    b
  }

  /** Two complete one-row boards of width five that agree column by column are equal. */
  lemma RowExtensionality(a: Board, b: Board)
    requires Total(a, 5, 1) && Total(b, 5, 1)
    requires forall x :: 0 <= x < 5 ==> a[(x, 0)] == b[(x, 0)]
    ensures a == b
  {
    forall c | c in a
      ensures a[c] == b[c]
    {
      assert c == (c.0, 0);
    }
    assert a.Keys == b.Keys;
  }

  /** The game after `filled` letters A have been dropped from the left, with the cursor on column `cursor`. */
  function RowGame(filled: int, cursor: int): Game {
    Game(5, 1, 3, RowOfA(filled), cursor, A, 0, 0)
  }

  /** Every such game is valid. */
  lemma RowGameValid(filled: int, cursor: int)
    requires 0 <= cursor < 5
    ensures Valid(RowGame(filled, cursor))
  {
  }

  /** A letter dropped right of the filled columns lands in row 0. */
  lemma RowGameLanding(filled: int, cursor: int)
    requires 0 <= filled <= cursor < 5
    ensures Landing(RowGame(filled, cursor)) == 0
  {
    RowGameValid(filled, cursor);
    assert RowGame(filled, cursor).board[(cursor, 0)] == Empty;
  }

  /** Dropping A just right of the filled columns fills one more column. */
  lemma RowGamePlaced(filled: int, more: int)
    requires 0 <= filled < 5 && more == filled + 1
    ensures WellFormed(RowGame(filled, filled)) && Landing(RowGame(filled, filled)) == 0
    ensures Placed(RowGame(filled, filled)) == RowOfA(more)
  {
    RowGameValid(filled, filled);
    RowGameLanding(filled, filled);
    var p := Placed(RowGame(filled, filled));
    assert forall x :: 0 <= x < 5 ==> p[(x, 0)] == RowCell(more, x);
    RowExtensionality(p, RowOfA(more));
  }

  /** The cells a drop clears are those the clearing of the placed board destroys. */
  lemma RowGameCleared(filled: int, more: int, s: set<Cell>)
    requires 0 <= filled < 5 && more == filled + 1
    requires DestroyMatches(RowOfA(more), 5, 1, 3, filled, 0, A).destroyed == s
    ensures Cleared(RowGame(filled, filled)) == s
  {
    RowGamePlaced(filled, more);
    PlaceAndClearUnfold(RowGame(filled, filled));
  }

  /** A drop that clears nothing leaves the placed board, adds nothing to the score, and takes the next letter. */
  lemma DropWithoutClearing(g: Game, next: Letter)
    requires Valid(g) && Landing(g) >= 0 && Cleared(g) == {}
    ensures DropLetter(g, next) == g.(board := Placed(g), currentLetter := next)
  {
    PlaceAndClearUnfold(g);
    var m := PlaceAndClear(g);
    assert IterationOrder({}) == [];
    assert m.board == Placed(g) by {
      ClearedBoard(g);
    }
  }

  /** Clearing after a lone A in column 0 clears nothing. */
  lemma FirstRunCleared()
    ensures DestroyMatches(RowOfA(1), 5, 1, 3, 0, 0, A).destroyed == {}
  {
    var b := RowOfA(1);
    assert ScanLeft(b, 5, 1, -1, 0, A) == 0;
    assert ScanRight(b, 5, 1, 1, 0, A) == 0;
    assert ScanDown(b, 5, 1, 0, 1, A) == 0;
  }

  /** Clearing after A in columns 0 and 1 clears nothing: the run is two long. */
  lemma SecondRunCleared()
    ensures DestroyMatches(RowOfA(2), 5, 1, 3, 1, 0, A).destroyed == {}
  {
    var b := RowOfA(2);
    assert ScanLeft(b, 5, 1, -1, 0, A) == 0;
    assert ScanLeft(b, 5, 1, 0, 0, A) == 1;
    assert ScanRight(b, 5, 1, 2, 0, A) == 0;
    assert ScanDown(b, 5, 1, 1, 1, A) == 0;
  }

  /** The run of A in columns 0 to 2 through column 2 is three long. */
  lemma ThirdRun()
    ensures HorizontalRun(RowOfA(3), 5, 1, 2, 0, A) == [(2, 0), (1, 0), (0, 0)]
    ensures ScanDown(RowOfA(3), 5, 1, 2, 1, A) == 0
  {
    var b := RowOfA(3);
    assert ScanLeft(b, 5, 1, -1, 0, A) == 0;
    assert ScanLeft(b, 5, 1, 0, 0, A) == 1;
    assert ScanLeft(b, 5, 1, 1, 0, A) == 2;
    assert ScanRight(b, 5, 1, 3, 0, A) == 0;
    var run := HorizontalRun(b, 5, 1, 2, 0, A);
    HorizontalRunAt(b, 5, 1, 2, 0, A);
    assert |run| == 3 && run[0] == (2, 0) && run[1] == (1, 0) && run[2] == (0, 0);
  }

  /** Clearing after A in columns 0 to 2 clears exactly those three cells. */
  lemma ThirdRunCleared()
    ensures DestroyMatches(RowOfA(3), 5, 1, 3, 2, 0, A).destroyed == {(0, 0), (1, 0), (2, 0)}
  {
    ThirdRun();
    var run := HorizontalRun(RowOfA(3), 5, 1, 2, 0, A);
    assert Elements(run) == {(0, 0), (1, 0), (2, 0)};
  }

  /** Dropping A into column 0 of the blank row clears nothing. */
  lemma FirstDrop()
    ensures DropLetter(RowGame(0, 0), A) == RowGame(1, 0)
  {
    RowGameValid(0, 0);
    FirstRunCleared();
    RowGameCleared(0, 1, {});
    RowGamePlaced(0, 1);
    DropWithoutClearing(RowGame(0, 0), A);
  }

  /** Dropping A into column 1 next to the first A clears nothing. */
  lemma SecondDrop()
    ensures DropLetter(RowGame(1, 1), A) == RowGame(2, 1)
  {
    RowGameValid(1, 1);
    SecondRunCleared();
    RowGameCleared(1, 2, {});
    RowGamePlaced(1, 2);
    DropWithoutClearing(RowGame(1, 1), A);
  }

  /**
    On a one-row board of width five, settling after a drop into column x that
    clears (x, 0) and every cell not already blank leaves the blank row.
   */
  lemma SettleClearedRow(b: Board, x: int, letter: Letter, cleared: set<Cell>)
    requires Total(b, 5, 1) && (x, 0) in cleared
    requires forall d :: d in cleared ==> d.1 == 0
    requires forall i :: 0 <= i < 5 ==> (i, 0) in cleared || b[(i, 0)] == Empty
    ensures Settle(b, 5, 1, x, 0, letter, cleared) == RowOfA(0)
  {
    var e := Settle(b, 5, 1, x, 0, letter, cleared);
    forall i | 0 <= i < 5
      ensures e[(i, 0)] == Empty
    {
      if (i, 0) in cleared {
        assert Lifted(cleared, (i, 0));
      }
    }
    RowExtensionality(e, RowOfA(0));
  }

  /** Dropping A into column 2 lands in row 0 and clears exactly columns 0 to 2. */
  lemma ThirdCleared()
    ensures WellFormed(RowGame(2, 2)) && Landing(RowGame(2, 2)) == 0
    ensures Cleared(RowGame(2, 2)) == {(0, 0), (1, 0), (2, 0)}
  {
    RowGameValid(2, 2);
    RowGameLanding(2, 2);
    ThirdRunCleared();
    RowGameCleared(2, 3, {(0, 0), (1, 0), (2, 0)});
  }

  /** Columns 0 to 2 of row 0: the cells the third drop clears. */
  lemma FirstThreeCells()
    ensures |{(0, 0), (1, 0), (2, 0)}| == 3
    ensures forall d :: d in {(0, 0), (1, 0), (2, 0)} ==> d.1 == 0
    ensures forall i :: 0 <= i < 5 ==> (i, 0) in {(0, 0), (1, 0), (2, 0)} || RowCell(2, i) == Empty
  {
    forall i | 0 <= i < 5
      ensures (i, 0) in {(0, 0), (1, 0), (2, 0)} || RowCell(2, i) == Empty
    {
      if i == 0 {} else if i == 1 {} else if i == 2 {}
    }
  }

  /** Once the run of three in columns 0 to 2 is cleared, the settled row is blank. */
  lemma ThirdDropBoard()
    ensures WellFormed(RowGame(2, 2)) && Landing(RowGame(2, 2)) == 0
    ensures Expected(RowGame(2, 2)) == RowOfA(0)
  {
    ThirdCleared();
    FirstThreeCells();
    SettleClearedRow(RowOfA(2), 2, A, {(0, 0), (1, 0), (2, 0)});
  }

  /** The last game of the scenario: blank row, cursor on column 2, thirty points. */
  function RowCleared(): Game {
    RowGame(0, 2).(score := 30)
  }

  /** Dropping A into column 2 clears columns 0 to 2 for thirty points. */
  lemma ThirdDrop()
    ensures DropLetter(RowGame(2, 2), A) == RowCleared()
  {
    ThirdCleared();
    FirstThreeCells();
    ThirdDropBoard();
    RowGameValid(2, 2);
    DropLetterBoard(RowGame(2, 2), A);
  }

  /** The cursor moves of the scenario. */
  lemma ScenarioMoves()
    ensures Valid(RowGame(0, 2)) && Step(RowGame(0, 2), MoveLeft) == RowGame(0, 1)
    ensures Valid(RowGame(0, 1)) && Step(RowGame(0, 1), MoveLeft) == RowGame(0, 0)
    ensures Valid(RowGame(1, 0)) && Step(RowGame(1, 0), MoveRight) == RowGame(1, 1)
    ensures Valid(RowGame(2, 1)) && Step(RowGame(2, 1), MoveRight) == RowGame(2, 2)
  {
    RowGameValid(0, 2);
    RowGameValid(0, 1);
    RowGameValid(1, 0);
    RowGameValid(2, 1);
  }

  /** Running a command list is carrying out its first command, then running the rest. */
  lemma RunCons(g: Game, cmd: Command, rest: seq<Command>, g': Game)
    requires Valid(g) && Step(g, cmd) == g'
    ensures Valid(g') && Run(g, [cmd] + rest) == Run(g', rest)
  {
    assert ([cmd] + rest)[1..] == rest;
  }

  /** A drop command is a drop of the current letter. */
  lemma StepDrop(g: Game, next: Letter)
    requires Valid(g)
    ensures Step(g, Drop(next)) == DropLetter(g, next)
  {
  }

  /** Running a single command is carrying it out. */
  lemma RunSingle(g: Game, cmd: Command)
    requires Valid(g)
    ensures Run(g, [cmd]) == Step(g, cmd)
  {
    assert [cmd][1..] == [];
  }

  /** The third drop, the last command of the scenario. */
  lemma RunFromSeventh()
    requires Valid(RowGame(2, 2))
    ensures Run(RowGame(2, 2), [Drop(A)]) == RowCleared()
  {
    ThirdDrop();
    StepDrop(RowGame(2, 2), A);
    RunSingle(RowGame(2, 2), Drop(A));
  }

  /** The last two commands of the scenario. */
  lemma RunFromSixth()
    requires Valid(RowGame(2, 1))
    ensures Run(RowGame(2, 1), [MoveRight, Drop(A)]) == RowCleared()
  {
    ScenarioMoves();
    RunFromSeventh();
    RunCons(RowGame(2, 1), MoveRight, [Drop(A)], RowGame(2, 2));
  }

  /** The last three commands of the scenario. */
  lemma RunFromFifth()
    requires Valid(RowGame(1, 1))
    ensures Run(RowGame(1, 1), [Drop(A), MoveRight, Drop(A)]) == RowCleared()
  {
    RowGameValid(2, 1);
    SecondDrop();
    RunFromSixth();
    RunCons(RowGame(1, 1), Drop(A), [MoveRight, Drop(A)], RowGame(2, 1));
  }

  /** The last four commands of the scenario. */
  lemma RunFromFourth()
    requires Valid(RowGame(1, 0))
    ensures Run(RowGame(1, 0), [MoveRight, Drop(A), MoveRight, Drop(A)]) == RowCleared()
  {
    ScenarioMoves();
    RunFromFifth();
    RunCons(RowGame(1, 0), MoveRight, [Drop(A), MoveRight, Drop(A)], RowGame(1, 1));
  }

  /** The last five commands of the scenario. */
  lemma RunFromThird()
    requires Valid(RowGame(0, 0))
    ensures Run(RowGame(0, 0), [Drop(A), MoveRight, Drop(A), MoveRight, Drop(A)]) == RowCleared()
  {
    RowGameValid(1, 0);
    FirstDrop();
    RunFromFourth();
    RunCons(RowGame(0, 0), Drop(A), [MoveRight, Drop(A), MoveRight, Drop(A)], RowGame(1, 0));
  }

  /** The last six commands of the scenario. */
  lemma RunFromSecond()
    requires Valid(RowGame(0, 1))
    ensures Run(RowGame(0, 1), [MoveLeft, Drop(A), MoveRight, Drop(A), MoveRight, Drop(A)]) == RowCleared()
  {
    ScenarioMoves();
    RunFromThird();
    RunCons(RowGame(0, 1), MoveLeft, [Drop(A), MoveRight, Drop(A), MoveRight, Drop(A)], RowGame(0, 0));
  }

  /**
    From a fresh five-by-one game with threshold three and first letter A:
    left, left, drop, right, drop, right, drop, each drop drawing A next,
    clears the row and scores thirty.
   */
  lemma RowOfThreeScenario()
    ensures var g := Run(NewGame(5, 1, 3, A), [MoveLeft, MoveLeft, Drop(A), MoveRight, Drop(A), MoveRight, Drop(A)]);
      g.score == 30 && g.board == BuildBoard(5, 1)
  {
    assert NewGame(5, 1, 3, A) == RowGame(0, 2);
    ScenarioMoves();
    RunFromSecond();
    RunCons(RowGame(0, 2), MoveLeft, [MoveLeft, Drop(A), MoveRight, Drop(A), MoveRight, Drop(A)], RowGame(0, 1));
    assert RowOfA(0) == BuildBoard(5, 1);
  }
}
