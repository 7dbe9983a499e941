/**
  The input loop of a game: each key the player presses becomes a command,
  and a command moves the cursor, drops the current letter, or is ignored.
  Whatever the commands, the game stays valid and the score never falls.
 */
module Play {
  import opened Grid
  import opened Game
  import opened DropProofs

  /**
    What a key press does. `Drop` carries the letter drawn for the turn after
    it; `Ignored` is any key without a move bound to it.
   */
  datatype Command = MoveLeft | MoveRight | Drop(next: Letter) | Ignored

  /** Carry out one command. */
  ghost function Step(g: Game, cmd: Command): (g': Game)
    requires Valid(g)
    ensures Valid(g')
    ensures g'.score >= g.score
    ensures g'.width == g.width && g'.height == g.height && g'.destroyCount == g.destroyCount && g'.turn == g.turn
    ensures cmd == Ignored ==> g' == g
    ensures cmd.MoveLeft? || cmd.MoveRight? ==> g'.board == g.board && g'.score == g.score
  {
    match cmd
    case MoveLeft => CursorLeft(g)
    case MoveRight => CursorRight(g)
    case Drop(next) =>
      DropLetterKeepsValid(g, next);
      DropLetter(g, next)
    case Ignored => g
  }

  /** Carry out a sequence of commands, first to last. */
  ghost function Run(g: Game, cmds: seq<Command>): (g': Game)
    requires Valid(g)
    ensures Valid(g')
    ensures g'.score >= g.score
    ensures g'.width == g.width && g'.height == g.height && g'.destroyCount == g.destroyCount && g'.turn == g.turn
    decreases |cmds|
  {
    if cmds == [] then g else Run(Step(g, cmds[0]), cmds[1..])
  }

  /** Running two command sequences one after the other is running them joined. */
  lemma {:induction false} RunAppend(g: Game, cmds1: seq<Command>, cmds2: seq<Command>)
    requires Valid(g)
    ensures Run(g, cmds1 + cmds2) == Run(Run(g, cmds1), cmds2)
    decreases |cmds1|
  {
    if cmds1 == [] {
      assert cmds1 + cmds2 == cmds2;
    } else {
      assert (cmds1 + cmds2)[0] == cmds1[0];
      assert (cmds1 + cmds2)[1..] == cmds1[1..] + cmds2;
      RunAppend(Step(g, cmds1[0]), cmds1[1..], cmds2);
    }
  }
}
