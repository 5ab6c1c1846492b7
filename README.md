# A Dafny model of the chess-LLM turn orchestrator

The application lets two decision sources play chess against each other. A
source is a language model from one of four providers, or a human dragging
pieces on the board. The model covers the parts of the program that decide
what happens on each ply:

- **`describeMove`** turns a move token into an English sentence. It is a
  pure function, modelled as `Moves.DescribeMove`. The lemmas pin down each
  branch in the source's order: castling, capture, check, checkmate,
  promotion and plain moves.
- **The player catalog** (`llms`) and the configuration types (`Models`).
  The catalog is the constant `Models.Catalog`, so it has no row of its
  own below. The lemmas show it has nine entries with distinct model names,
  and that exactly one of them, the last, is the human entry.
- **`getNextMove`** (`Llm`). The model covers the provider table and its
  fallback, the two prompt texts, the numbered candidate list, the JavaScript
  `parseInt` of the reply and the wrapping of errors. The provider SDK is an
  oracle value `Sdk`.
- **The `ChessBoard` component**, in two layers:
  - `ChessBoardSpec` gives each state-changing handler as a pure transition
    on a `Board` value and states the orchestrator's properties as lemmas.
    These are `handleSave`, `startGameLoop`, `makeMove`, `togglePlayPause`,
    `resetGame` and `onDrop`.
  - `ChessBoardComponent.ChessBoard` is a class whose fields are the
    component's state. Its methods update those fields in place, in the
    source's order. Each method is proved to agree with its transition.
    This includes the one-pass retry loop of `makeMove` and the `while`
    loop of `startGameLoop`. The query `isDraggablePiece` changes nothing,
    so it is a function of the class (`ChessBoard.IsDraggablePiece`) with
    its own contract.
- **Shared text helpers** (`Text`). These model JavaScript `split`, `join`,
  number-to-string and `parseInt`. They come with round-trip lemmas: joining
  numbered lines and splitting them again recovers the lines, and `parseInt`
  reads back the number that was printed.

The rules engine (chess.js) is an interface (`Engine.Rules`). It supplies
the legal moves, the effect of a move and the status queries as functions of
the move history. The side to move is given by the parity of the history.

Some consequences of the code as written, each proved in the model:

- Castling is recognised only in the digit spelling `0-0`/`0-0-0`. Tokens in
  the letter spelling `O-O` are described as pawn moves
  (`Moves.LetterCastlingIsNotCastling`).
- A capture that gives check is described as a capture, and the check
  marker stays in the square (`Moves.CaptureBeatsCheck`).
- A reply that is not a number gives NaN. NaN passes the bounds check and
  indexes to `undefined`. Describing `undefined` throws, so the ply resets
  the game (`ChessBoardSpec.NaNReplyResets`). This happens even when the
  game is already over.
- A failed request leaves the move as the empty token
  (`ChessBoardSpec.FailedRequestChoosesNothing`). So does an out-of-range
  index (the second postcondition of `ChessBoardSpec.ChoiceIsLegalOrEmpty`).
  That token is then handed to the engine.
- The board snapshot is taken outside every `try` block. If it fails, the
  rejection leaves `makeMove` with the in-progress flag still set
  (`ChessBoardSpec.InProgressOnlyWhenAborted`), and it ends the game loop
  with the game still running (`ChessBoardSpec.LoopStopsOnlyWhenOver`).
- `onDrop` logs the last move of the history before it looks at whether the
  engine accepted the drop. A refused drop therefore logs the previous move
  again (`ChessBoardSpec.NullDropStillLogged`).
- chess.js also reports a draw once the fifty-move counter reaches 100
  half-moves, even when the last move mates. The result line tests checkmate
  first but adds the winner only when the game is not a draw, so such a mate
  logs "Game Over: Checkmate." and names no winner
  (the second postcondition of `ChessBoardSpec.EndOfGameLines`).
- The request sits in a retry loop, but the loop bound (`retry < 1`) allows
  a single attempt. The model follows the code: `ChessBoardSpec.ChooseMove`
  asks the backend at most once. The SDK oracle sees which attempt of the
  ply a call belongs to, and the ply depends only on its answers at
  attempt 0 (`ChessBoardSpec.OneRequestPerPly`). The loop makes one
  `getNextMove` call at most (`ChessBoardComponent.ChessBoard.PickMove`).

## Model

| member | source | states |
|---|---|---|
| Moves.DescribeMove | src/app/extras/moves.ts:1-47 | `describeMove`: the castling literals, then capture, check, mate, the promotion pattern and the plain move, tested in that order; each branch is characterised by the lemmas below |
| Moves.DescribeMoveNamesPiece | src/app/extras/moves.ts:1-47 | every description starts with one of the six piece words |
| Moves.DescriptionParts | src/app/extras/moves.ts:18-46 | every non-castling description is a piece word, one of the three verbs and a remainder; the promotion verb occurs only for a five-character `P…=` token without `x`, `+` or `#` |
| Moves.CastlingOnlyZeroForms | src/app/extras/moves.ts:12-16 | the castling sentences are produced exactly for `0-0` and `0-0-0` (both directions) |
| Moves.LetterCastlingIsNotCastling | src/app/extras/moves.ts:12-46 | `O-O` and `O-O-O` are described as pawn moves to those squares |
| Moves.CaptureDescription | src/app/extras/moves.ts:19-24 | a token with an `x` is described by the piece of its first part and the text between the first and second `x` |
| Moves.CaptureBeatsCheck | src/app/extras/moves.ts:19-30 | `Nxe5+` is "Knight captures on e5+": capture is tested before check |
| Moves.CheckDescription | src/app/extras/moves.ts:27-30 | for every token with `+` and no `x`: the piece of the first character, then `slice(1, -1)` of the token, then " with check"; a token shorter than two characters, such as a lone `+`, moves to "" |
| Moves.MateDescription | src/app/extras/moves.ts:33-36 | the same for every token with `#` and neither `x` nor `+`, with " and delivers checkmate" |
| Moves.PromotionDescription | src/app/extras/moves.ts:38-41 | the description is "Pawn promotes to Queen" exactly for five-character tokens `P…=` without `x`, `+` or `#` |
| Moves.PlainPieceMove | src/app/extras/moves.ts:43-46 | a plain move of a lettered piece names that piece and the rest of the token |
| Moves.PlainPawnMove | src/app/extras/moves.ts:43-46 | a plain move whose first character is not a piece letter is a pawn move to the whole token |
| Moves.LeadPiece | src/app/extras/moves.ts:2-9 | the piece word for a token is the table entry of its first character, and "Pawn" for an empty token or a character the table lacks |
| Moves.PieceName | src/app/extras/moves.ts:2-9 | the `pieceNames` table: a name exactly for the letters K, Q, R, B, N and P |
| Moves.SliceInner | src/app/extras/moves.ts:29 | `slice(1, -1)`: the token is its first character, the slice and its last character; shorter tokens give "" |
| Text.Split | src/app/extras/moves.ts:20 | `split` gives at least one part, at least two exactly when the separator occurs, and no part contains it |
| Text.Join | src/app/LLM/llm.ts:47 | `join`: no parts give "", otherwise the result starts with the first part (read back by `SplitJoin`) |
| Text.JoinSplit | src/app/extras/moves.ts:20 | joining the parts of a split with the same separator gives back the string |
| Text.SplitJoin | src/app/LLM/llm.ts:47 | splitting a join of separator-free parts gives back the parts |
| Text.NatToString | src/app/LLM/llm.ts:47 | a printed number is a non-empty run of decimal digits, with a leading zero only for 0 |
| Text.NatToStringValue | src/app/LLM/llm.ts:47 | the digits of a printed number have that number as their value |
| Text.ParseInt | src/app/LLM/llm.ts:71 | `parseInt` without a radix: skip white space, read an optional sign and an optional `0x` prefix, then the longest run of digits; NaN when there is none (characterised by `ParseIntToString` and `ParseIntNaN`) |
| Text.TrimStart | src/app/LLM/llm.ts:71 | `parseInt`'s skip of leading white space: it drops a prefix made only of white space and keeps a suffix that is empty or starts with a non-blank |
| Text.DigitPrefix | src/app/LLM/llm.ts:71 | the digit run `parseInt` reads is the longest prefix of digits |
| Text.ParseIntToString | src/app/LLM/llm.ts:71 | `parseInt` of a printed integer followed by a non-digit reads back that integer |
| Text.ParseIntNaN | src/app/LLM/llm.ts:71 | `parseInt` gives NaN exactly when, after the blanks and the optional sign, there is no decimal digit, or a `0x` prefix has no hexadecimal digit behind it |
| Models.CatalogShape | src/app/extras/models.ts:3-13 | the catalog has nine entries, the first is OpenAI gpt-4o, and the model names are distinct |
| Models.CatalogHumanEntry | src/app/extras/models.ts:12 | exactly the last entry has the model "human", and exactly it has the Human provider |
| Models.FindModel | src/app/components/chessboard.tsx:57-58 | `find` returns a catalog entry carrying the name, or nothing when no entry carries it |
| Models.FindModelUnique | src/app/components/chessboard.tsx:57-58 | with distinct names, `find` returns exactly the entry that carries the name |
| Models.FindModelExact | src/app/components/chessboard.tsx:57-58 | with distinct names, the lookup succeeds exactly when some entry carries the name |
| Models.Opponent | src/app/components/chessboard.tsx:122-129 | the other side differs from the side to move |
| Engine.Turn | src/app/components/chessboard.tsx:123 | `game.turn()`: White is to move after an even number of moves, Black after an odd number |
| Llm.FactoryTable | src/app/LLM/llm.ts:23-29 | the provider table: a factory for every provider except Human, which maps to null |
| Llm.SelectFactory | src/app/LLM/llm.ts:23-32 | each provider selects its own client factory, and Human (null in the table) falls back to OpenAI's |
| Llm.SystemPrompt | src/app/LLM/llm.ts:39-41 | the system prompt: the fixed text with the side's name in quotes |
| Llm.SystemPromptNamesSide | src/app/LLM/llm.ts:39-41 | the system prompts for White and Black differ |
| Llm.CandidateLines | src/app/LLM/llm.ts:47 | one line `<i + 1> - <move i>` per candidate, in order (read back by `CandidateLinesReadBack`) |
| Llm.CandidateBlock | src/app/LLM/llm.ts:47 | the candidate lines joined by line breaks (read back by `CandidateBlockReadBack`) |
| Llm.CandidateBlockReadBack | src/app/LLM/llm.ts:47 | splitting the candidate block at line breaks gives one line per move, in order; line i parses to i + 1 and ends with move i |
| Llm.CandidateLinesReadBack | src/app/LLM/llm.ts:47 | each numbered line has no line break, parses to its number and ends with its move |
| Llm.CandidateLineReadBack | src/app/LLM/llm.ts:47 | the line `n - move` parses to n and ends with the move |
| Llm.UserPrompt | src/app/LLM/llm.ts:43-51 | the user prompt: the side, the last move, the range "from 1 to N" twice and the candidate block, in the template's order |
| Llm.UserPromptEmbeds | src/app/LLM/llm.ts:43-51 | the user prompt carries the side's name and the last move verbatim at fixed offsets |
| Llm.UserPromptDeterminesLastMove | src/app/LLM/llm.ts:43 | two user prompts that agree on side and candidates are equal only when their last moves are equal |
| Llm.UserPromptStatesRangeTwice | src/app/LLM/llm.ts:43-51 | the range "1 to N" appears at two distinct places in the user prompt |
| Llm.BuildRequest | src/app/LLM/llm.ts:53-68 | the generation request: the provider's factory, the key, the model name, and the data the two prompts and the image message are built from |
| Llm.GetNextMove | src/app/LLM/llm.ts:10-77 | `getNextMove`: create the client and the model handle (errors propagate), make one generation call (errors become the fixed message), and return `parseInt` of the reply minus one, or NaN |
| Llm.ReplyIndex | src/app/LLM/llm.ts:70-72 | a reply that starts with the integer k (followed by a non-digit) yields index k − 1 |
| Llm.ReplyWithoutNumber | src/app/LLM/llm.ts:70-72 | a reply gives NaN, and not an index or an error, exactly when it has no number for `parseInt` to read |
| Llm.ErrorWrapping | src/app/LLM/llm.ts:32-76 | a failure creating the model propagates unchanged; a failed generation call becomes the fixed "LLM Error" message; no other error arises |
| Llm.OneBackendCall | src/app/LLM/llm.ts:53-68 | the result depends on the SDK only through the one model creation and the one generation call for this request at the call's own attempt; SDKs that differ at every other attempt give the same result |
| ChessBoardSpec.IsHumanGame | src/app/components/chessboard.tsx:95 | some side is configured as the human player |
| ChessBoardSpec.IsAllHumanGame | src/app/components/chessboard.tsx:290-291 | both sides are configured as the human player, which implies some side is |
| ChessBoardSpec.SaveStep | src/app/components/chessboard.tsx:56-82 | `handleSave` up to its message: look up both selections in the catalog; replace both players only when both are found |
| ChessBoardSpec.SaveAllOrNothing | src/app/components/chessboard.tsx:56-82 | with both selections in the catalog, both players are replaced by the entries of those names with the given keys (missing keys become "") and the confirmation is shown; otherwise only the error message changes |
| ChessBoardSpec.ClearSavedStep | src/app/components/chessboard.tsx:76-77 | the timed end of the confirmation: it becomes "" and nothing else changes |
| ChessBoardSpec.ClearErrorStep | src/app/components/chessboard.tsx:80-81 | the timed end of the error message: it becomes "" and nothing else changes |
| ChessBoardSpec.ResetStep | src/app/components/chessboard.tsx:219-232 | `resetGame`: empty history and log, game over, not playing, not started, no result or thinking text |
| ChessBoardSpec.ResetIdempotent | src/app/components/chessboard.tsx:219-232 | resetting twice is the same as resetting once |
| ChessBoardSpec.ToggleStep | src/app/components/chessboard.tsx:210-217 | `togglePlayPause`: the play flag is negated |
| ChessBoardSpec.ToggleTwice | src/app/components/chessboard.tsx:210-217 | toggling flips the play flag, and toggling twice restores the state |
| ChessBoardSpec.ResultLine | src/app/components/chessboard.tsx:182-189 | "Game Over: <reason>." with the reason tested as checkmate, stalemate, draw, followed by the winner clause unless the engine reports a draw |
| ChessBoardSpec.ResultLineWinner | src/app/components/chessboard.tsx:182-189 | the result line ends by naming the mover as winner exactly when the engine does not report a draw |
| ChessBoardSpec.EndReason | src/app/components/chessboard.tsx:183-186 | the reason is empty exactly when the engine reports neither checkmate, stalemate nor draw |
| ChessBoardSpec.EndOfGameLines | src/app/components/chessboard.tsx:182-189 | a checkmate that is not also a draw gives "Game Over: Checkmate." followed by the winner clause for the mover; a checkmate the engine also calls a draw gives "Game Over: Checkmate." alone; with a stalemate counted as a draw, a stalemate gives "Game Over: Stalemate." |
| ChessBoardSpec.LastMoveText | src/app/components/chessboard.tsx:139-143 | the previous move as "<side>: <description>", or "No previous moves yet." before the first move |
| ChessBoardSpec.Describe | src/app/components/chessboard.tsx:135 | the legal moves mapped through `describeMove`: one description per move, in the engine's order |
| ChessBoardSpec.NextMoveRequest | src/app/components/chessboard.tsx:139-159 | the input handed to `getNextMove`: the side to move, that side's provider, model and key, the descriptions of the legal moves (one per move, in order), the last-move text and the snapshot |
| ChessBoardSpec.AcceptReply | src/app/components/chessboard.tsx:162-166 | the bounds check: an error or an out-of-range index leaves "", NaN gives `undefined`; so a chosen token is legal or empty, and `undefined` comes exactly from NaN |
| ChessBoardSpec.AskBackend | src/app/components/chessboard.tsx:137-172 | one numbered pass of the retry loop: "" when the model name or key is missing, otherwise the bounds-checked reply of `getNextMove` for the side to move at that attempt |
| ChessBoardSpec.ChooseMove | src/app/components/chessboard.tsx:130-174 | the only legal move when there is one, otherwise attempt 0 at the backend, the only one `retry < 1` allows |
| ChessBoardSpec.ApplyChoice | src/app/components/chessboard.tsx:175-207 | the apply step: describe the move (throwing for `undefined`), skip an over game, apply the move, or reset on an engine error |
| ChessBoardSpec.Conclude | src/app/components/chessboard.tsx:180-193 | log the move, then the result line and the over flag when the engine reports the game over |
| ChessBoardSpec.MakeMoveStep | src/app/components/chessboard.tsx:116-208 | `makeMove`: choose and apply a move; a failed snapshot rejects with the in-progress flag set |
| ChessBoardSpec.InProgressOnlyWhenAborted | src/app/components/chessboard.tsx:117-134 | the in-progress flag outlives a ply exactly when the snapshot failed for a move that is not forced, and that rejection changes nothing else |
| ChessBoardSpec.ForcedMoveSkipsBackend | src/app/components/chessboard.tsx:130-131 | with one legal move, that move is chosen and the ply does not depend on the image or the SDK |
| ChessBoardSpec.OneRequestPerPly | src/app/components/chessboard.tsx:136-173 | the ply depends on the SDK only through its answers at attempt 0 to the one request built for the side to move; SDKs that differ at every later attempt give the same ply |
| ChessBoardSpec.ChoiceIsLegalOrEmpty | src/app/components/chessboard.tsx:130-173 | the chosen token is a legal move or the empty token, and `undefined` only when the move was not forced; an index reply selects that legal move when in range and "" otherwise |
| ChessBoardSpec.FailedRequestChoosesNothing | src/app/components/chessboard.tsx:145-168 | a missing model name or key, or a request that throws, leaves the empty token |
| ChessBoardSpec.NaNReplyResets | src/app/components/chessboard.tsx:162-204 | a NaN reply ends the ply in the `catch`: the game is reset and the error message shown |
| ChessBoardSpec.FailStep | src/app/components/chessboard.tsx:196-204 | the `catch` of the apply step: history and log emptied, the game over and not playing, the players kept and the error message shown |
| ChessBoardSpec.GameOverLeavesGame | src/app/components/chessboard.tsx:175-179 | with the game already over, a chosen token changes neither history nor log |
| ChessBoardSpec.PlyLogsMove | src/app/components/chessboard.tsx:175-195 | an applied ply extends the history by the engine's record of the move and the log by the mover's description, then by the result line exactly when the game is now over |
| ChessBoardSpec.EngineErrorResets | src/app/components/chessboard.tsx:176-204 | an engine error resets the game and shows the error message |
| ChessBoardSpec.TickStep | src/app/components/chessboard.tsx:106-110 | one loop turn: a ply when playing, then the presses during the pause, which a rejected ply never reaches |
| ChessBoardSpec.RunLoop | src/app/components/chessboard.tsx:102-111 | the `while (true)` loop over the schedule: stop when the game is over or a ply rejects, otherwise one turn and the rest |
| ChessBoardSpec.RunLoopTurn | src/app/components/chessboard.tsx:102-111 | the one-turn unfolding of `RunLoop` that the class loop's invariant steps with: a loop that is not over ends after a turn whose ply rejected, and otherwise is that turn followed by the loop from the board it leaves |
| ChessBoardSpec.LoopStopsOnlyWhenOver | src/app/components/chessboard.tsx:102-111 | the loop plays at most one ply per turn and stops before the schedule ends only when the game is over or a ply rejected; a rejected ply leaves a running game with the in-progress flag set |
| ChessBoardSpec.PausedLoopIdles | src/app/components/chessboard.tsx:102-111 | a paused loop with no presses plays no ply and leaves the state unchanged |
| ChessBoardSpec.StartStep | src/app/components/chessboard.tsx:85-114 | `startGameLoop`: mark the game started, playing and not over; with a human side, one ply if the side to move is automated; otherwise the loop |
| ChessBoardSpec.StartPlies | src/app/components/chessboard.tsx:85-114 | with a human side, exactly one ply runs when the side to move is automated and none otherwise; with no human side, the loop runs at least one turn |
| ChessBoardSpec.PromotionOf | src/app/components/chessboard.tsx:272 | the promotion piece is one character: the lower-cased second character of a piece code of two or more characters, and "q" for a shorter code |
| ChessBoardSpec.DropStep | src/app/components/chessboard.tsx:264-296 | `onDrop`: play the drag, log the last move, refuse a null or game-ending drop, and start a reply unless both sides are human |
| ChessBoardSpec.LogDrop | src/app/components/chessboard.tsx:276-285 | recording a drop never changes the players |
| ChessBoardSpec.DropLogsMover | src/app/components/chessboard.tsx:269-296 | an applied drop is logged for the side that made it, and it is accepted exactly when the game is neither over nor drawn |
| ChessBoardSpec.NullDropStillLogged | src/app/components/chessboard.tsx:269-287 | a refused drop logs the previous move again and is not accepted; before any move it throws |
| ChessBoardSpec.DropStartsReply | src/app/components/chessboard.tsx:288-295 | an accepted drop starts a reply exactly when not both sides are human; between humans the SDK is never used |
| ChessBoardComponent.ChessBoard.constructor | src/app/components/chessboard.tsx:22-48 | the initial state: empty history and log, over, not playing, both players the first catalog entry with no key |
| ChessBoardComponent.ChessBoard.HandleSave | src/app/components/chessboard.tsx:56-83 | the fields become the save transition of the old state |
| ChessBoardComponent.ChessBoard.ClearSavedMessage | src/app/components/chessboard.tsx:76-77 | only the confirmation message is cleared |
| ChessBoardComponent.ChessBoard.ClearErrorMessage | src/app/components/chessboard.tsx:80-81 | only the error message is cleared |
| ChessBoardComponent.ChessBoard.TogglePlayPause | src/app/components/chessboard.tsx:210-217 | only the play flag flips |
| ChessBoardComponent.ChessBoard.ResetGame | src/app/components/chessboard.tsx:219-232 | empty history and log, over, not playing, not started; players and messages other than result and thinking kept |
| ChessBoardComponent.ChessBoard.MakeMove | src/app/components/chessboard.tsx:116-208 | the fields and the outcome are those of the ply transition, including the rejection of a failed snapshot before the retry loop |
| ChessBoardComponent.ChessBoard.PickMove | src/app/components/chessboard.tsx:130-174 | the returned move is the specified choice; `getNextMove` is called exactly once when the move is not forced and the side has a model name and key, and never otherwise; a forced move changes nothing, otherwise the `finally` block has run |
| ChessBoardComponent.ChessBoard.TryBackend | src/app/components/chessboard.tsx:137-172 | an accepted answer is the specified pass at the loop's attempt number; an unaccepted one is a pass whose specified result is the empty token; `getNextMove` is called exactly when the model name and key are present |
| ChessBoardComponent.ChessBoard.AskModel | src/app/components/chessboard.tsx:151-166 | the answer is accepted unless an error was thrown or an integer index is out of range, so a NaN reply is accepted; an accepted answer is the bounds-checked choice |
| ChessBoardComponent.ChessBoard.ApplyMove | src/app/components/chessboard.tsx:175-207 | the fields and the outcome are those of the apply transition |
| ChessBoardComponent.ChessBoard.FailMove | src/app/components/chessboard.tsx:196-202 | the game is reset and the error message shown |
| ChessBoardComponent.ChessBoard.RecordMove | src/app/components/chessboard.tsx:180-195 | the move is logged, then the result line when the engine reports the game over |
| ChessBoardComponent.ChessBoard.StartGameLoop | src/app/components/chessboard.tsx:85-114 | the fields, the ply count, the turn count and whether a ply rejected are those of the start transition |
| ChessBoardComponent.ChessBoard.RunTurns | src/app/components/chessboard.tsx:102-111 | the `while` loop ends in the state, ply count, turn count and rejection flag of the loop function |
| ChessBoardComponent.ChessBoard.LoopTurn | src/app/components/chessboard.tsx:106-110 | a ply runs exactly when playing; the turn rejects exactly when that ply's snapshot failed, and otherwise the presses of the pause apply |
| ChessBoardComponent.ChessBoard.OnDrop | src/app/components/chessboard.tsx:264-296 | the fields and the result are those of the drop transition |
| ChessBoardComponent.ChessBoard.RecordDrop | src/app/components/chessboard.tsx:276-285 | an applied move joins the history and the last move is logged; with no move at all it throws and changes nothing |
| ChessBoardComponent.ChessBoard.IsDraggablePiece | src/app/components/chessboard.tsx:322-328 | a piece is draggable exactly when the side to move is human and the piece code starts with that side's letter |

## Left out

- Rendering is not modelled. This covers the JSX, the 3-D piece images, scrolling the log and the FEN position string shown on the board.
- The board snapshot (`html2canvas`) is a parameter: an opaque string, or `None` when taking it rejects. What the image shows is not modelled.
- The provider SDK is an oracle value. Its answers depend on the request and on the attempt number of the call within the ply. The request is given by the data its texts are built from, not by the texts alone.
- The sampling settings (`maxTokens`, `temperature`) are not modelled. Neither is console output.
- The chess rules are not modelled. chess.js is an interface of functions of the move history.
- Timers are not modelled. A timed message is cleared by its own step (`ClearSavedMessage`, `ClearErrorMessage`), and a press during a pause takes effect at the end of the loop turn.
- Concurrency is modelled only for the play/pause and reset presses, which take effect at the end of a loop turn. A save or a drop during a running loop is not modelled, and every other handler runs to completion before the next one starts.
- Text is modelled as sequences of characters. UTF-16 code units and locale-specific case mapping are not modelled.
- Text.ParseInt: reads an unbounded integer, so it does not model the loss of precision of JavaScript numbers above 2^53.
- Moves.LowerChar: maps only ASCII letters, as do Moves.UpperChar and the lower-casing of the promotion piece in `onDrop`.
- ChessBoardComponent.ChessBoard.TogglePlayPause: the component keeps the play flag both in a ref and in a React state. The model merges the two into one field. So it does not capture that the state setter negates the value of the last render: two toggles before a re-render leave the displayed state out of step with the ref.
- ChessBoardComponent.ChessBoard.RunTurns: `while (true)` runs for at most as many turns as the environment schedule provides. The loop stops at the end of the schedule even when the game is not over.
- ChessBoardComponent.ChessBoard.OnDrop: the reply ply that `onDrop` starts without awaiting it is modelled as running to completion before `onDrop` returns.
- Nothing in the component reads `isMoveInProgress`. The model writes it where the source does, and `InProgressOnlyWhenAborted` states when it stays set.
- Unknown provider strings cannot reach `getNextMove` through the catalog. `Provider` is a closed type, so the `?? createOpenAI` fallback is exercised only by Human.
