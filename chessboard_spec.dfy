/** The turn orchestrator of the board component as pure transitions: each
    operation maps the component's state before it to the state after it.
    The class `ChessBoardComponent.ChessBoard` performs the same steps in
    place and is proved to agree with these functions; the properties of the
    orchestrator are lemmas about them. */
module ChessBoardSpec {
  import opened Wrappers
  import opened Models
  import opened Moves
  import opened Llm
  import opened Engine

  /** `playersRef.current`: one configuration per side. */
  datatype Players = Players(w: Player, b: Player) {
    function Of(side: Side): Player
    {
      match side
      case White => w
      case Black => b
    }
  }

  /** Both sides start with the first catalog entry and no key. */
  const DefaultPlayers := Players(Player(White, Catalog[0], ""), Player(Black, Catalog[0], ""))

  /** The component's state: the game's move history, the move log, the
      flags (each React state merged with the ref that mirrors it), the
      player configurations and the four messages. */
  datatype Board = Board(
    history: seq<string>,
    log: seq<string>,
    isPlaying: bool,
    isGameOver: bool,
    hasGameStarted: bool,
    isMoveInProgress: bool,
    players: Players,
    resultMessage: string,
    thinkingMessage: string,
    errorMessage: string,
    savedMessage: string)

  const Initial := Board([], [], false, true, false, false, DefaultPlayers, "", "", "", "")

  const SavedText := "Settings saved successfully!"
  const InvalidSelectionText := "Error: LLM selection is invalid."
  const MoveErrorText := "Error occured finding next move, make sure API key is correct."
  const NoPreviousMove := "No previous moves yet."
  const ThinkingSuffix := " is thinking..."

  /** Some side is configured as the human. */
  predicate IsHumanGame(players: Players)
  {
    players.w.llm.model == HumanModel || players.b.llm.model == HumanModel
  }

  /** Both sides are configured as the human. */
  predicate IsAllHumanGame(players: Players)
    ensures IsAllHumanGame(players) ==> IsHumanGame(players)
  {
    players.w.llm.model == HumanModel && players.b.llm.model == HumanModel
  }

  /** A form value names a catalog model. */
  ghost predicate InCatalog(name: Option<string>)
  {
    name.Some? && exists i :: 0 <= i < |Catalog| && Catalog[i].model == name.value
  }

  // ---------------------------------------------------------------- handleSave

  /** `handleSave` up to the confirmation or error message: both selections
      are looked up in the catalog, and only when both are found are both
      players replaced. */
  function SaveStep(b: Board, whiteModel: Option<string>, blackModel: Option<string>,
                    whiteKey: Option<string>, blackKey: Option<string>): Board
  {
    match (FindModel(Catalog, whiteModel), FindModel(Catalog, blackModel))
    case (Some(whiteLlm), Some(blackLlm)) =>
      b.(players := Players(Player(White, whiteLlm, whiteKey.GetOr("")),
                            Player(Black, blackLlm, blackKey.GetOr(""))),
         savedMessage := SavedText)
    case _ => b.(errorMessage := InvalidSelectionText)
  }

  /** The save is all or nothing: with both selections in the catalog both
      players become the catalog entries of those names with the given keys;
      otherwise no player changes and the error message is shown. */
  lemma SaveAllOrNothing(b: Board, whiteModel: Option<string>, blackModel: Option<string>,
                         whiteKey: Option<string>, blackKey: Option<string>)
    ensures var r := SaveStep(b, whiteModel, blackModel, whiteKey, blackKey);
      if InCatalog(whiteModel) && InCatalog(blackModel) then
        && r.players.w == Player(White, r.players.w.llm, whiteKey.GetOr(""))
        && r.players.b == Player(Black, r.players.b.llm, blackKey.GetOr(""))
        && (forall e :: e in Catalog && e.model == whiteModel.value <==> e == r.players.w.llm)
        && (forall e :: e in Catalog && e.model == blackModel.value <==> e == r.players.b.llm)
        && r == b.(players := r.players, savedMessage := SavedText)
      else
        r == b.(errorMessage := InvalidSelectionText)
  {
    CatalogShape();
    FindModelExact(Catalog, whiteModel);
    FindModelExact(Catalog, blackModel);
  }

  /** The timed end of the confirmation message. */
  function ClearSavedStep(b: Board): (b': Board)
    ensures b'.savedMessage == "" && b'.(savedMessage := b.savedMessage) == b
  {
    b.(savedMessage := "")
  }

  /** The timed end of the error message. */
  function ClearErrorStep(b: Board): (b': Board)
    ensures b'.errorMessage == "" && b'.(errorMessage := b.errorMessage) == b
  {
    b.(errorMessage := "")
  }

  // ---------------------------------------------------------- resetGame, toggle

  /** `resetGame`: a fresh game, an empty log, the game marked over and not
      playing, no result or thinking text; players and the error and
      confirmation messages are kept. */
  function ResetStep(b: Board): Board
  {
    b.(isMoveInProgress := false, history := [], log := [], isGameOver := true,
       isPlaying := false, resultMessage := "", thinkingMessage := "", hasGameStarted := false)
  }

  /** Resetting twice is resetting once. */
  lemma ResetIdempotent(b: Board)
    ensures ResetStep(ResetStep(b)) == ResetStep(b)
  {
  }

  /** `togglePlayPause`. */
  function ToggleStep(b: Board): Board
  {
    b.(isPlaying := !b.isPlaying)
  }

  /** Toggling twice restores the play state, and nothing else changes. */
  lemma ToggleTwice(b: Board)
    ensures ToggleStep(ToggleStep(b)) == b
    ensures ToggleStep(b).isPlaying != b.isPlaying
  {
  }

  // ----------------------------------------------------------------- makeMove

  /** The text the model is given for the previous move: the side that made
      it and its description, or a fixed sentence before the first move. */
  function LastMoveText(history: seq<string>): string
  {
    if |history| == 0 || history[|history| - 1] == "" then NoPreviousMove
    else SideName(Opponent(Turn(history))) + ": " + DescribeMove(history[|history| - 1])
  }

  /** The descriptions of the legal moves, in the engine's order. */
  function Describe(moves: seq<string>): (descriptions: seq<string>)
    ensures |descriptions| == |moves|
    ensures forall i :: 0 <= i < |moves| ==> descriptions[i] == DescribeMove(moves[i])
  {
    seq(|moves|, i requires 0 <= i < |moves| => DescribeMove(moves[i]))
  }

  /** The request `makeMove` hands to `getNextMove` for the side to move. */
  function NextMoveRequest(b: Board, rules: Rules, image: string): (input: NextMoveInput)
    ensures input.color == Turn(b.history)
    ensures input.model == b.players.Of(input.color).llm.model
    ensures input.apiKey == b.players.Of(input.color).apiKey
    ensures input.provider == b.players.Of(input.color).llm.provider
    ensures input.allMoves == Describe(rules.moves(b.history))
    ensures |input.allMoves| == |rules.moves(b.history)|
    ensures input.lastMove == LastMoveText(b.history)
    ensures input.currentStateImage == image
  {
    var side := Turn(b.history);
    var player := b.players.Of(side);
    NextMoveInput(image, Describe(rules.moves(b.history)), player.llm.provider,
                  player.llm.model, side, LastMoveText(b.history), player.apiKey)
  }

  /** The move `makeMove` goes on to apply: a token, or `undefined`. */
  datatype Choice = Chosen(token: string) | Undefined

  /** The bounds check on the returned index. A thrown error leaves the
      initial empty token; NaN passes the check and indexes to `undefined`. */
  function AcceptReply(reply: NextMove, moves: seq<string>): (choice: Choice)
    ensures choice.Chosen? ==> choice.token == "" || choice.token in moves
    ensures choice == Undefined <==> reply == NaN
  {
    match reply
    case Error(_) => Chosen("")
    case NaN => Undefined
    case Index(i) => if i < 0 || i >= |moves| then Chosen("") else Chosen(moves[i])
  }

  /** One pass of the retry loop, numbered `attempt`: the backend is asked
      unless the model name or key is missing. */
  function AskBackend(b: Board, rules: Rules, image: string, sdk: Sdk, attempt: nat): Choice
  {
    var player := b.players.Of(Turn(b.history));
    if player.llm.model == "" || player.apiKey == "" then Chosen("")
    else AcceptReply(GetNextMove(NextMoveRequest(b, rules, image), sdk, attempt), rules.moves(b.history))
  }

  /** The choice of `makeMove`: a forced move is taken as it is; otherwise
      the loop bound `retry < 1` leaves only attempt 0. */
  function ChooseMove(b: Board, rules: Rules, image: string, sdk: Sdk): Choice
  {
    var moves := rules.moves(b.history);
    if |moves| == 1 then Chosen(moves[0]) else AskBackend(b, rules, image, sdk, 0)
  }

  /** How a ply ended: the apply step ran, it was skipped because the game
      was already over, it failed and reset the game (with an error message
      pending its timed end), or `makeMove` itself rejected because the board
      snapshot, taken outside every `try`, failed. */
  datatype PlyOutcome = Moved | Skipped | Failed | Aborted

  /** The reason named in the result line, in the order the source tests them. */
  function EndReason(checkmate: bool, stalemate: bool, draw: bool): (reason: string)
    ensures reason == "" <==> !checkmate && !stalemate && !draw
  {
    if checkmate then "Checkmate" else if stalemate then "Stalemate" else if draw then "Draw" else ""
  }

  /** The clause naming the winner. */
  function WinnerClause(mover: Side): string
  {
    " Winner: " + SideName(mover) + "."
  }

  /** The result line appended when the game ends. */
  function ResultLine(checkmate: bool, stalemate: bool, draw: bool, mover: Side): string
  {
    "Game Over: " + EndReason(checkmate, stalemate, draw) + "." + (if !draw then WinnerClause(mover) else "")
  }

  /** The result line names the mover as winner exactly when the engine does
      not call the result a draw. */
  lemma ResultLineWinner(checkmate: bool, stalemate: bool, draw: bool, mover: Side)
    ensures var line := ResultLine(checkmate, stalemate, draw, mover);
      var clause := WinnerClause(mover);
      (|clause| <= |line| && line[|line| - |clause|..] == clause) <==> !draw
  {
    var line := ResultLine(checkmate, stalemate, draw, mover);
    var clause := WinnerClause(mover);
    var reason := EndReason(checkmate, stalemate, draw);
    if !draw {
      assert line == "Game Over: " + reason + "." + clause;
    } else if |clause| <= |line| {
      assert line == "Game Over: " + reason + ".";
      assert |clause| == 15;
      assert reason == "Checkmate" || reason == "Stalemate" || reason == "Draw";
      assert line[|line| - 15] != ' ';
    }
  }

  /** A checkmate names the mover as winner unless the engine also reports
      a draw, as it does for a mate on the hundredth half-move without a
      capture or pawn move; such a mate names no winner. With the engine's
      status queries consistent, a stalemate names no winner either. */
  lemma EndOfGameLines(rules: Rules, h: seq<string>, mover: Side)
    requires StatusConsistent(rules)
    ensures rules.isCheckmate(h) && !rules.isDraw(h) ==>
      ResultLine(rules.isCheckmate(h), rules.isStalemate(h), rules.isDraw(h), mover)
        == "Game Over: " + "Checkmate" + "." + WinnerClause(mover)
    ensures rules.isCheckmate(h) && rules.isDraw(h) ==>
      ResultLine(rules.isCheckmate(h), rules.isStalemate(h), rules.isDraw(h), mover)
        == "Game Over: " + "Checkmate" + "."
    ensures !rules.isCheckmate(h) && rules.isStalemate(h) ==>
      ResultLine(rules.isCheckmate(h), rules.isStalemate(h), rules.isDraw(h), mover)
        == "Game Over: " + "Stalemate" + "."
  {
    assert rules.isStalemate(h) ==> rules.isDraw(h);
  }

  /** The log entries of an applied move: the move, then the result line if
      the game is now over. */
  function Conclude(b: Board, rules: Rules, entry: string, mover: Side): Board
  {
    var logged := b.(log := b.log + [entry]);
    var h := b.history;
    if rules.isGameOver(h) then
      var line := ResultLine(rules.isCheckmate(h), rules.isStalemate(h), rules.isDraw(h), mover);
      logged.(resultMessage := line, log := logged.log + [line], isGameOver := true)
    else logged
  }

  /** The `catch` of the apply step: the game is reset and the error shown. */
  function FailStep(b: Board): (b': Board)
    ensures b'.history == [] && b'.log == [] && b'.isGameOver && !b'.isPlaying
    ensures b'.errorMessage == MoveErrorText && b'.players == b.players
  {
    ResetStep(b).(errorMessage := MoveErrorText)
  }

  /** The apply step of `makeMove`. The description is computed first, so
      an undefined move throws even when the game is over; an over game is
      left as it is; otherwise the engine applies the move. */
  function ApplyChoice(b: Board, rules: Rules, choice: Choice, mover: Side): (Board, PlyOutcome)
  {
    match choice
    case Undefined => (FailStep(b), Failed)
    case Chosen(token) =>
      var entry := SideName(mover) + ": " + DescribeMove(token);
      if b.isGameOver then (b, Skipped)
      else
        match rules.play(b.history, San(token))
        case Throws => (FailStep(b), Failed)
        case Null => (Conclude(b, rules, entry, mover), Moved)
        case Applied(san) => (Conclude(b.(history := b.history + [san]), rules, entry, mover), Moved)
  }

  /** `makeMove`: one ply for the side to move. `snapshot` is the board
      image, or `None` when taking it rejects: the rejection escapes
      `makeMove` with the in-progress flag still set. */
  function MakeMoveStep(b: Board, rules: Rules, snapshot: Option<string>, sdk: Sdk): (Board, PlyOutcome)
  {
    var forced := |rules.moves(b.history)| == 1;
    if !forced && snapshot.None? then (b.(isMoveInProgress := true), Aborted)
    else
      var chosen := b.(isMoveInProgress := false,
                       thinkingMessage := if forced then b.thinkingMessage else "");
      ApplyChoice(chosen, rules, ChooseMove(b, rules, snapshot.GetOr(""), sdk), Turn(b.history))
  }

  /** The in-progress flag outlives a ply exactly when the snapshot failed:
      that happens only for a move that is not forced, and the rejection
      changes nothing else. Every other path ends in a `finally` that clears
      the flag. */
  lemma InProgressOnlyWhenAborted(b: Board, rules: Rules, snapshot: Option<string>, sdk: Sdk)
    ensures var (r, outcome) := MakeMoveStep(b, rules, snapshot, sdk);
      && (r.isMoveInProgress <==> outcome == Aborted)
      && (outcome == Aborted <==> |rules.moves(b.history)| != 1 && snapshot.None?)
      && (outcome == Aborted ==> r == b.(isMoveInProgress := true))
  {
  }

  /** A forced move is taken without a snapshot or the backend: the ply does
      not depend on the image or on the SDK. */
  lemma ForcedMoveSkipsBackend(b: Board, rules: Rules, image1: string, sdk1: Sdk,
                               snapshot1: Option<string>, snapshot2: Option<string>, sdk2: Sdk)
    requires |rules.moves(b.history)| == 1
    ensures ChooseMove(b, rules, image1, sdk1) == Chosen(rules.moves(b.history)[0])
    ensures MakeMoveStep(b, rules, snapshot1, sdk1) == MakeMoveStep(b, rules, snapshot2, sdk2)
  {
  }

  /** The backend is consulted at most once per ply: two SDKs that answer
      the ply's request alike at attempt 0, however they differ at every
      later attempt, give the same ply. */
  lemma OneRequestPerPly(b: Board, rules: Rules, image: string, sdk1: Sdk, sdk2: Sdk)
    requires var input := NextMoveRequest(b, rules, image);
      var f := SelectFactory(input.provider);
      && sdk1.languageModel(f, input.apiKey, input.model, 0) == sdk2.languageModel(f, input.apiKey, input.model, 0)
      && sdk1.generateText(BuildRequest(input), 0) == sdk2.generateText(BuildRequest(input), 0)
    ensures MakeMoveStep(b, rules, Some(image), sdk1) == MakeMoveStep(b, rules, Some(image), sdk2)
  {
    OneBackendCall(NextMoveRequest(b, rules, image), sdk1, sdk2, 0);
  }

  /** A returned index is taken only inside `[0, |moves|)` and then selects
      that move; every other outcome but NaN leaves the empty token. So a
      chosen token is always a legal move or empty. */
  lemma ChoiceIsLegalOrEmpty(b: Board, rules: Rules, image: string, sdk: Sdk)
    ensures var moves := rules.moves(b.history);
      match ChooseMove(b, rules, image, sdk)
      case Chosen(token) => token == "" || token in moves
      case Undefined => |moves| != 1
    ensures var moves := rules.moves(b.history);
      var player := b.players.Of(Turn(b.history));
      var reply := GetNextMove(NextMoveRequest(b, rules, image), sdk, 0);
      |moves| != 1 && player.llm.model != "" && player.apiKey != "" && reply.Index? ==>
        ChooseMove(b, rules, image, sdk)
          == if 0 <= reply.value < |moves| then Chosen(moves[reply.value]) else Chosen("")
  {
  }

  /** A missing model name or key, or an error from `getNextMove`, leaves the
      empty token. */
  lemma FailedRequestChoosesNothing(b: Board, rules: Rules, image: string, sdk: Sdk)
    requires |rules.moves(b.history)| != 1
    requires var player := b.players.Of(Turn(b.history));
      player.llm.model == "" || player.apiKey == ""
      || GetNextMove(NextMoveRequest(b, rules, image), sdk, 0).Error?
    ensures ChooseMove(b, rules, image, sdk) == Chosen("")
  {
  }

  /** A NaN reply is not rejected by the bounds check; the `undefined` move
      it selects makes the description throw, so the ply resets the game and
      shows the error, even when the game was already over. */
  lemma NaNReplyResets(b: Board, rules: Rules, image: string, sdk: Sdk)
    requires |rules.moves(b.history)| != 1
    requires var player := b.players.Of(Turn(b.history));
      player.llm.model != "" && player.apiKey != ""
    requires GetNextMove(NextMoveRequest(b, rules, image), sdk, 0) == NaN
    ensures MakeMoveStep(b, rules, Some(image), sdk).1 == Failed
    ensures MakeMoveStep(b, rules, Some(image), sdk).0 == FailStep(b)
  {
  }

  /** Once the game is over, a ply with a defined move changes neither the
      game nor the log. */
  lemma GameOverLeavesGame(b: Board, rules: Rules, image: string, sdk: Sdk)
    requires b.isGameOver
    requires ChooseMove(b, rules, image, sdk).Chosen?
    ensures var (r, outcome) := MakeMoveStep(b, rules, Some(image), sdk);
      outcome == Skipped && r.history == b.history && r.log == b.log && r.isGameOver
  {
  }

  /** A ply on a running game whose move the engine does not throw on logs
      exactly one entry for the mover, then the result line if the engine
      now reports the game over, and the over flag follows the engine. */
  lemma PlyLogsMove(b: Board, rules: Rules, image: string, sdk: Sdk)
    requires !b.isGameOver
    requires ChooseMove(b, rules, image, sdk).Chosen?
    requires rules.play(b.history, San(ChooseMove(b, rules, image, sdk).token)) != Throws
    ensures var token := ChooseMove(b, rules, image, sdk).token;
      var mover := Turn(b.history);
      var played := rules.play(b.history, San(token));
      var h := if played.Applied? then b.history + [played.san] else b.history;
      var (r, outcome) := MakeMoveStep(b, rules, Some(image), sdk);
      && outcome == Moved
      && r.history == h
      && r.log == b.log + [SideName(mover) + ": " + DescribeMove(token)]
                        + (if rules.isGameOver(h)
                           then [ResultLine(rules.isCheckmate(h), rules.isStalemate(h), rules.isDraw(h), mover)]
                           else [])
      && r.isGameOver == rules.isGameOver(h)
      && r.players == b.players && !r.isMoveInProgress
  {
  }

  /** An exception from the engine resets the game and shows the error. */
  lemma EngineErrorResets(b: Board, rules: Rules, image: string, sdk: Sdk)
    requires !b.isGameOver
    requires ChooseMove(b, rules, image, sdk).Chosen?
    requires rules.play(b.history, San(ChooseMove(b, rules, image, sdk).token)) == Throws
    ensures MakeMoveStep(b, rules, Some(image), sdk) == (FailStep(b), Failed)
  {
  }

  // ------------------------------------------------------------ startGameLoop

  /** What the environment does during one turn of the automated loop: the
      board snapshot (`None` when taking it rejects) and the SDK for the ply,
      and whether the user pressed play/pause or reset during the pause that
      follows it. */
  datatype Tick = Tick(snapshot: Option<string>, sdk: Sdk, togglePressed: bool, resetPressed: bool)

  /** The ply of this turn rejects (a move that is not forced, and a failed
      snapshot): the rejection leaves the loop and `startGameLoop`. */
  predicate TickAborts(b: Board, rules: Rules, tick: Tick)
  {
    b.isPlaying && |rules.moves(b.history)| != 1 && tick.snapshot.None?
  }

  /** A ply as the awaiting caller sees it: a failed ply's error message has
      been cleared again by the time `makeMove` returns. */
  function AfterPly(ply: (Board, PlyOutcome)): Board
  {
    if ply.1 == Failed then ClearErrorStep(ply.0) else ply.0
  }

  /** The loop result: the final state, the number of plies run, the number
      of ticks used, and whether a ply rejected. */
  datatype LoopResult = LoopResult(board: Board, plies: nat, ticks: nat, aborted: bool)
  {
    /** The same result, after `plies` plies and `ticks` ticks already run. */
    function After(plies': nat, ticks': nat): LoopResult
    {
      LoopResult(board, plies' + plies, ticks' + ticks, aborted)
    }
  }

  /** One turn of the loop: a ply if playing, then the user's presses
      during the pause, which a rejected ply never reaches. */
  function TickStep(b: Board, rules: Rules, tick: Tick): Board
  {
    var played := if b.isPlaying then AfterPly(MakeMoveStep(b, rules, tick.snapshot, tick.sdk)) else b;
    var toggled := if tick.togglePressed then ToggleStep(played) else played;
    if TickAborts(b, rules, tick) then played
    else if tick.resetPressed then ResetStep(toggled) else toggled
  }

  /** The `while (true)` loop of an automated game, for as long as the
      schedule lasts: it stops when the game is over or a ply rejects, and
      plays one ply per turn while playing. */
  function RunLoop(b: Board, rules: Rules, schedule: seq<Tick>): LoopResult
    decreases |schedule|
  {
    if b.isGameOver || schedule == [] then LoopResult(b, 0, 0, false)
    else if TickAborts(b, rules, schedule[0]) then LoopResult(TickStep(b, rules, schedule[0]), 1, 1, true)
    else
      var rest := RunLoop(TickStep(b, rules, schedule[0]), rules, schedule[1..]);
      LoopResult(rest.board, rest.plies + (if b.isPlaying then 1 else 0), rest.ticks + 1, rest.aborted)
  }

  /** One turn of a loop that is not over, to the board `next` it leaves:
      the loop ends there if the ply rejected, and goes on otherwise. */
  lemma RunLoopTurn(b: Board, rules: Rules, schedule: seq<Tick>, next: Board)
    requires !b.isGameOver && schedule != []
    requires next == TickStep(b, rules, schedule[0])
    ensures RunLoop(b, rules, schedule)
      == if TickAborts(b, rules, schedule[0]) then LoopResult(next, 1, 1, true)
         else RunLoop(next, rules, schedule[1..]).After(if b.isPlaying then 1 else 0, 1)
  {
  }

  /** The loop runs at most one ply per tick and stops early only when the
      game is over or a ply rejected; a rejected ply leaves a running game
      with the in-progress flag set. */
  lemma {:induction false} LoopStopsOnlyWhenOver(b: Board, rules: Rules, schedule: seq<Tick>)
    decreases |schedule|
    ensures var r := RunLoop(b, rules, schedule);
      && r.plies <= r.ticks <= |schedule|
      && (r.ticks < |schedule| ==> r.board.isGameOver || r.aborted)
      && (r.aborted ==> !r.board.isGameOver && r.board.isMoveInProgress)
  {
    if !b.isGameOver && schedule != [] && !TickAborts(b, rules, schedule[0]) {
      LoopStopsOnlyWhenOver(TickStep(b, rules, schedule[0]), rules, schedule[1..]);
    }
  }

  /** A paused game that nobody resumes or resets never plays a ply: the
      loop idles and the state is unchanged. */
  lemma {:induction false} PausedLoopIdles(b: Board, rules: Rules, schedule: seq<Tick>)
    decreases |schedule|
    requires !b.isPlaying
    requires forall i :: 0 <= i < |schedule| ==> !schedule[i].togglePressed && !schedule[i].resetPressed
    ensures RunLoop(b, rules, schedule).board == b
    ensures RunLoop(b, rules, schedule).plies == 0
  {
    if !b.isGameOver && schedule != [] {
      PausedLoopIdles(b, rules, schedule[1..]);
    }
  }

  /** `startGameLoop`: marks the game started, playing and not over; with a
      human side it plays at most the one ply of an automated side to move,
      and otherwise it runs the loop. */
  function StartStep(b: Board, rules: Rules, first: Tick, later: seq<Tick>): LoopResult
  {
    var started := b.(hasGameStarted := true, isPlaying := true, isGameOver := false);
    if IsHumanGame(started.players) then
      if started.players.Of(Turn(started.history)).llm.model != HumanModel then
        var ply := MakeMoveStep(started, rules, first.snapshot, first.sdk);
        LoopResult(AfterPly(ply), 1, 0, ply.1 == Aborted)
      else LoopResult(started, 0, 0, false)
    else RunLoop(started, rules, [first] + later)
  }

  /** With a human side, at most one ply runs, and only for an automated side
      to move; with no human side the loop starts on a running game. */
  lemma StartPlies(b: Board, rules: Rules, first: Tick, later: seq<Tick>)
    ensures var r := StartStep(b, rules, first, later);
      IsHumanGame(b.players) ==>
        r.plies == (if b.players.Of(Turn(b.history)).llm.model != HumanModel then 1 else 0)
    ensures var r := StartStep(b, rules, first, later);
      !IsHumanGame(b.players) ==> r.plies <= 1 + |later| && r.ticks >= 1
  {
    var started := b.(hasGameStarted := true, isPlaying := true, isGameOver := false);
    if !IsHumanGame(b.players) {
      LoopStopsOnlyWhenOver(started, rules, [first] + later);
    }
  }

  // ------------------------------------------------------------------- onDrop

  /** What `onDrop` does: it throws, or it returns whether the drop is
      accepted, together with the outcome of the reply it starts, if any. */
  datatype DropResult = DropThrew | Dropped(accepted: bool, reply: Option<PlyOutcome>)

  /** `piece[1]?.toLowerCase() ?? "q"`. */
  function PromotionOf(piece: string): (promotion: string)
    ensures |promotion| == 1
    ensures |piece| >= 2 ==> promotion == [LowerChar(piece[1])]
    ensures |piece| < 2 ==> promotion == "q"
  {
    if |piece| >= 2 then [LowerChar(piece[1])] else "q"
  }

  /** `onDrop`: the engine is asked to move the piece; the last move in the
      history is logged for the side that is not to move (before the null
      check); a refused or game-ending drop is not accepted, and an
      accepted one starts a reply unless both sides are human. */
  function DropStep(b: Board, rules: Rules, from: string, to: string, piece: string,
                    snapshot: Option<string>, sdk: Sdk): (Board, DropResult)
  {
    var played := rules.play(b.history, Drag(from, to, PromotionOf(piece)));
    if played.Throws? then (b, DropThrew)
    else
      match LogDrop(b, played)
      case None => (b, DropThrew)
      case Some(logged) =>
        var h := logged.history;
        if played.Null? then (logged, Dropped(false, None))
        else if rules.isGameOver(h) || rules.isDraw(h) then (logged, Dropped(false, None))
        else if !IsAllHumanGame(logged.players) then
          var (r, outcome) := MakeMoveStep(logged, rules, snapshot, sdk);
          (r, Dropped(true, Some(outcome)))
        else (logged, Dropped(true, None))
  }

  /** The bookkeeping of a drop the engine did not throw on: an applied move
      joins the history, and the last move of the history is logged for the
      side that is not to move; with no move at all, `describeMove(undefined)`
      throws. */
  function LogDrop(b: Board, played: MoveResult): (logged: Option<Board>)
    requires !played.Throws?
    ensures logged.Some? ==> logged.value.players == b.players
  {
    var h := if played.Applied? then b.history + [played.san] else b.history;
    if |h| == 0 then None
    else Some(b.(history := h, log := b.log + [SideName(Opponent(Turn(h))) + ": " + DescribeMove(h[|h| - 1])]))
  }

  /** An applied drop is logged for the side that made it, and a drop never
      marks the game over itself, even when the engine reports it over. */
  lemma DropLogsMover(b: Board, rules: Rules, from: string, to: string, piece: string, snapshot: Option<string>, sdk: Sdk)
    requires rules.play(b.history, Drag(from, to, PromotionOf(piece))).Applied?
    ensures var san := rules.play(b.history, Drag(from, to, PromotionOf(piece))).san;
      var h := b.history + [san];
      var (r, result) := DropStep(b, rules, from, to, piece, snapshot, sdk);
      && result.Dropped?
      && result.accepted == !(rules.isGameOver(h) || rules.isDraw(h))
      && (result.reply.None? ==>
            r == b.(history := h, log := b.log + [SideName(Turn(b.history)) + ": " + DescribeMove(san)]))
  {
    var san := rules.play(b.history, Drag(from, to, PromotionOf(piece))).san;
    var h := b.history + [san];
    assert Opponent(Turn(h)) == Turn(b.history);
    assert h[|h| - 1] == san;
  }

  /** A drop the engine refuses with null is still logged, as a repeat of
      the previous move, and is not accepted; before any move it throws. */
  lemma NullDropStillLogged(b: Board, rules: Rules, from: string, to: string, piece: string, snapshot: Option<string>, sdk: Sdk)
    requires rules.play(b.history, Drag(from, to, PromotionOf(piece))) == Null
    ensures var h := b.history;
      DropStep(b, rules, from, to, piece, snapshot, sdk)
        == if |h| == 0 then (b, DropThrew)
           else (b.(log := b.log + [SideName(Opponent(Turn(h))) + ": " + DescribeMove(h[|h| - 1])]),
                 Dropped(false, None))
  {
  }

  /** An accepted drop starts exactly one reply ply unless both sides are
      human; between humans the backend is never involved. */
  lemma DropStartsReply(b: Board, rules: Rules, from: string, to: string, piece: string,
                        snapshot1: Option<string>, sdk1: Sdk, snapshot2: Option<string>, sdk2: Sdk)
    requires var played := rules.play(b.history, Drag(from, to, PromotionOf(piece)));
      played.Applied? && !rules.isGameOver(b.history + [played.san]) && !rules.isDraw(b.history + [played.san])
    ensures var (r, result) := DropStep(b, rules, from, to, piece, snapshot1, sdk1);
      result.Dropped? && result.accepted && (result.reply.Some? <==> !IsAllHumanGame(b.players))
    ensures IsAllHumanGame(b.players) ==>
      DropStep(b, rules, from, to, piece, snapshot1, sdk1) == DropStep(b, rules, from, to, piece, snapshot2, sdk2)
  {
  }
}
