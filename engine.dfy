/** The interface of the chess rules engine (chess.js) that the board
    component consumes. The rules themselves are not modelled: a `Rules`
    value supplies them as total functions of the game's move history, which
    determines the position because every game starts from the standard
    initial position and `reset` returns to it. */
module Engine {
  import opened Models

  /** What `game.move(...)` is given: a move token, or the squares and
      promotion piece of a dragged piece. */
  datatype MoveInput = San(token: string) | Drag(from: string, to: string, promotion: string)

  /** What `game.move(...)` does: it records a move (with its token), returns
      null without changing the game, or throws. */
  datatype MoveResult = Applied(san: string) | Null | Throws

  datatype Rules = Rules(
    moves: seq<string> -> seq<string>,
    play: (seq<string>, MoveInput) -> MoveResult,
    isGameOver: seq<string> -> bool,
    isCheckmate: seq<string> -> bool,
    isStalemate: seq<string> -> bool,
    isDraw: seq<string> -> bool)

  /** `game.turn()`: White moves first and the sides alternate. */
  function Turn(history: seq<string>): Side
  {
    if |history| % 2 == 0 then White else Black
  }

  /** The letter `game.turn()` returns, which also prefixes that side's piece codes. */
  function SideLetter(side: Side): char
  {
    match side
    case White => 'w'
    case Black => 'b'
  }

  /** Facts chess.js guarantees of its status queries: the game is over
      exactly on checkmate, stalemate or draw, and a stalemate counts as a
      draw. A checkmate may be a draw too: `isDraw` also holds once the
      fifty-move counter reaches 100 half-moves, whatever the last move did.
      Lemmas that depend on these facts say so. */
  ghost predicate StatusConsistent(rules: Rules)
  {
    forall h :: (rules.isGameOver(h) <==> rules.isCheckmate(h) || rules.isStalemate(h) || rules.isDraw(h))
             && (rules.isStalemate(h) ==> rules.isDraw(h))
  }
}
