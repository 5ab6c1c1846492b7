/** The board component itself: the fields it updates in place (the game,
    the move log, the flags, the players and the messages) and the handlers
    that update them. Each handler performs the source's steps in order and
    is proved to leave the state that the matching transition of
    `ChessBoardSpec` describes. */
module ChessBoardComponent {
  import opened Wrappers
  import opened Models
  import opened Moves
  import opened Llm
  import opened Engine
  import opened ChessBoardSpec

  class ChessBoard {
    /** The chess rules behind the `game` object. */
    const rules: Rules
    /** `game.history()`: the position is the standard start plus these moves. */
    var history: seq<string>
    /** `allMovesString`. */
    var log: seq<string>
    /** `isPlayingRef` and the `isPlaying` state it mirrors. */
    var isPlaying: bool
    /** `isGameOverRef` and the `isGameOver` state it mirrors. */
    var isGameOver: bool
    var hasGameStarted: bool
    var isMoveInProgress: bool
    /** `playersRef.current`. */
    var players: Players
    var resultMessage: string
    var thinkingMessage: string
    var errorMessage: string
    var savedMessage: string

    /** The component's state as a value. */
    function State(): Board
      reads this
    {
      Board(history, log, isPlaying, isGameOver, hasGameStarted, isMoveInProgress,
            players, resultMessage, thinkingMessage, errorMessage, savedMessage)
    }

    /** The first render: a new game, marked over and not playing, with both
        sides on the first catalog entry. */
    constructor (rules: Rules)
      ensures this.rules == rules
      ensures State() == Initial
    {
      this.rules := rules;
      history, log := [], [];
      isPlaying, isGameOver, hasGameStarted, isMoveInProgress := false, true, false, false;
      players := DefaultPlayers;
      resultMessage, thinkingMessage, errorMessage, savedMessage := "", "", "", "";
    }

    /** `handleSave`, with the form's values as parameters (`None` for a
        missing form element). The message stays until its timed end,
        `ClearSavedMessage` or `ClearErrorMessage`. */
    method HandleSave(whiteModel: Option<string>, blackModel: Option<string>,
                      whiteKey: Option<string>, blackKey: Option<string>)
      modifies this
      ensures State() == SaveStep(old(State()), whiteModel, blackModel, whiteKey, blackKey)
    {
      var whiteLlm := FindModel(Catalog, whiteModel);
      var blackLlm := FindModel(Catalog, blackModel);
      var whiteApiKey := whiteKey.GetOr("");
      var blackApiKey := blackKey.GetOr("");
      if whiteLlm.Some? && blackLlm.Some? {
        players := Players(Player(White, whiteLlm.value, whiteApiKey),
                           Player(Black, blackLlm.value, blackApiKey));
        savedMessage := SavedText;
      } else {
        errorMessage := InvalidSelectionText;
      }
    }

    /** The end of the two-second confirmation delay. */
    method ClearSavedMessage()
      modifies this
      ensures State() == ClearSavedStep(old(State()))
    {
      savedMessage := "";
    }

    /** The end of an error message's delay. */
    method ClearErrorMessage()
      modifies this
      ensures State() == ClearErrorStep(old(State()))
    {
      errorMessage := "";
    }

    /** `togglePlayPause`. */
    method TogglePlayPause()
      modifies this
      ensures State() == ToggleStep(old(State()))
    {
      if isPlaying {
        isPlaying := false;
      } else {
        isPlaying := true;
      }
    }

    /** `resetGame`. */
    method ResetGame()
      modifies this
      ensures State() == ResetStep(old(State()))
      ensures history == [] && log == [] && isGameOver && !isPlaying && !hasGameStarted
    {
      isMoveInProgress := false;
      history := [];
      log := [];
      isGameOver := true;
      isPlaying := false;
      resultMessage := "";
      thinkingMessage := "";
      hasGameStarted := false;
    }

    /** `makeMove`: choose a move for the side to move (the only legal one,
        or the backend's pick from one attempt), then apply it unless the
        game is over. `snapshot` is the board image (`None` when
        `html2canvas` rejects) and `sdk` the model backend. A failed ply
        leaves the error message set until its timed end. */
    method MakeMove(snapshot: Option<string>, sdk: Sdk) returns (outcome: PlyOutcome)
      modifies this
      ensures (State(), outcome) == MakeMoveStep(old(State()), rules, snapshot, sdk)
    {
      isMoveInProgress := true;
      var currentTurn := Turn(history);
      if |rules.moves(history)| != 1 && snapshot.None? {
        // the snapshot is awaited outside every `try`: its rejection escapes
        return Aborted;
      }
      var move, calls := PickMove(snapshot.GetOr(""), sdk);
      outcome := ApplyMove(move, currentTurn);
    }

    /** The first half of `makeMove`: the forced move, or the retry loop,
        whose bound `retry < 1` allows one attempt at asking the backend; its
        `finally` block clears the thinking message and the in-progress flag.
        `calls` counts the `getNextMove` calls made: one exactly when the
        move is not forced and the side to move has a model name and key. */
    method PickMove(image: string, sdk: Sdk) returns (move: Choice, calls: nat)
      modifies this
      ensures move == ChooseMove(old(State()), rules, image, sdk)
      ensures var player := old(players).Of(Turn(old(history)));
        calls == if |rules.moves(old(history))| == 1 || player.llm.model == "" || player.apiKey == "" then 0 else 1
      ensures State() == if |rules.moves(history)| == 1 then old(State())
                         else old(State()).(isMoveInProgress := false, thinkingMessage := "")
    {
      ghost var b0 := State();
      var moves := rules.moves(history);
      var currentTurn := Turn(history);
      ghost var player := players.Of(currentTurn);
      move, calls := Chosen(""), 0;
      if |moves| == 1 {
        move := Chosen(moves[0]);
      } else {
        for retry := 0 to 1
          invariant retry == 0 ==> move == Chosen("") && State() == b0 && calls == 0
          invariant retry == 1 ==> move == ChooseMove(b0, rules, image, sdk)
          invariant retry == 1 ==> calls == if player.llm.model == "" || player.apiKey == "" then 0 else 1
          invariant retry == 1 ==> State() == b0.(isMoveInProgress := false, thinkingMessage := "")
        {
          var found, accepted, called := TryBackend(image, sdk, retry);
          if called {
            calls := calls + 1;
          }
          if accepted {
            move := found;
            break;
          }
        }
      }
    }

    /** The body of the retry loop: the `try` that asks the backend and
        checks the index, and the `finally` block. `accepted` says whether
        the loop breaks with the move `found`; otherwise the move stays "". */
    method TryBackend(image: string, sdk: Sdk, attempt: nat) returns (found: Choice, accepted: bool, called: bool)
      modifies this
      ensures accepted ==> found == AskBackend(old(State()), rules, image, sdk, attempt)
      ensures !accepted ==> AskBackend(old(State()), rules, image, sdk, attempt) == Chosen("")
      ensures var player := old(players).Of(Turn(old(history)));
        called <==> player.llm.model != "" && player.apiKey != ""
      ensures State() == old(State()).(isMoveInProgress := false, thinkingMessage := "")
    {
      var moves := rules.moves(history);
      var currentTurn := Turn(history);
      var player := players.Of(currentTurn);
      var request := NextMoveRequest(State(), rules, image);
      thinkingMessage := SideName(currentTurn) + ThinkingSuffix;
      found, accepted, called := Chosen(""), false, false;
      if player.llm.model != "" && player.apiKey != "" {
        found, accepted := AskModel(request, moves, sdk, attempt);
        called := true;
      }
      isMoveInProgress := false;
      thinkingMessage := "";
    }

    /** The awaited `getNextMove` call and the bounds check on the index it
        returns; a thrown error is not accepted and leaves the move "". */
    method AskModel(request: NextMoveInput, moves: seq<string>, sdk: Sdk, attempt: nat)
      returns (found: Choice, accepted: bool)
      ensures accepted ==> found == AcceptReply(GetNextMove(request, sdk, attempt), moves)
      ensures !accepted ==> AcceptReply(GetNextMove(request, sdk, attempt), moves) == Chosen("")
      ensures accepted <==> !GetNextMove(request, sdk, attempt).Error?
                            && (GetNextMove(request, sdk, attempt).Index? ==> 0 <= GetNextMove(request, sdk, attempt).value < |moves|)
    {
      found, accepted := Chosen(""), false;
      var nextMove := GetNextMove(request, sdk, attempt);
      match nextMove
      case Index(i) =>
        if 0 <= i < |moves| {
          found, accepted := Chosen(moves[i]), true;
        }
      case NaN =>
        found, accepted := Undefined, true;
      case Error(_) =>
    }

    /** The second half of `makeMove`: describe the move, apply it unless the
        game is over, log it and the result; an exception resets the game
        and sets the error message. The `finally` block ends every path by
        clearing the in-progress flag. */
    method ApplyMove(move: Choice, currentTurn: Side) returns (outcome: PlyOutcome)
      modifies this
      ensures (State(), outcome) == ApplyChoice(old(State()).(isMoveInProgress := false), rules, move, currentTurn)
    {
      match move
      case Undefined =>
        FailMove();
        outcome := Failed;
      case Chosen(token) =>
        var moveString := SideName(currentTurn) + ": " + DescribeMove(token);
        if isGameOver {
          isMoveInProgress := false;
          outcome := Skipped;
          return;
        }
        var played := rules.play(history, San(token));
        if played.Throws? {
          FailMove();
          outcome := Failed;
          return;
        }
        if played.Applied? {
          history := history + [played.san];
        }
        RecordMove(moveString, currentTurn);
        outcome := Moved;
    }

    /** The `catch` block of the apply step. */
    method FailMove()
      modifies this
      ensures State() == FailStep(old(State()).(isMoveInProgress := false))
    {
      isMoveInProgress := false;
      ResetGame();
      errorMessage := MoveErrorText;
    }

    /** Logging an applied move, then the result if the game is now over. */
    method RecordMove(moveString: string, currentTurn: Side)
      modifies this
      ensures State() == Conclude(old(State()).(isMoveInProgress := false), rules, moveString, currentTurn)
    {
      log := log + [moveString];
      if rules.isGameOver(history) {
        var line := ResultLine(rules.isCheckmate(history), rules.isStalemate(history),
                               rules.isDraw(history), currentTurn);
        resultMessage := line;
        log := log + [line];
        isGameOver := true;
      }
      isMoveInProgress := false;
    }

    /** `startGameLoop`. The `while (true)` loop of an automated game runs
        for as long as `schedule` lasts; each tick is one turn of the loop
        and the user's presses during the pause that ends it. Returns the
        number of plies played and of ticks used. */
    method StartGameLoop(first: Tick, later: seq<Tick>) returns (plies: nat, ticks: nat, aborted: bool)
      modifies this
      ensures LoopResult(State(), plies, ticks, aborted) == StartStep(old(State()), rules, first, later)
    {
      hasGameStarted := true;
      isPlaying := true;
      isGameOver := false;
      plies, ticks, aborted := 0, 0, false;
      var turnKey := Turn(history);
      if IsHumanGame(players) {
        if players.Of(turnKey).llm.model != HumanModel {
          var outcome := MakeMove(first.snapshot, first.sdk);
          if outcome == Failed {
            ClearErrorMessage();
          }
          plies, aborted := 1, outcome == Aborted;
        }
      } else {
        plies, ticks, aborted := RunTurns([first] + later);
      }
    }

    /** The `while (true)` loop of `startGameLoop` for a game between two
        models: one turn per tick of the schedule until the game is over. */
    method RunTurns(schedule: seq<Tick>) returns (plies: nat, ticks: nat, aborted: bool)
      modifies this
      ensures LoopResult(State(), plies, ticks, aborted) == RunLoop(old(State()), rules, schedule)
    {
      plies, ticks, aborted := 0, 0, false;
      ghost var target := RunLoop(State(), rules, schedule);
      while true
        invariant ticks <= |schedule|
        invariant RunLoop(State(), rules, schedule[ticks..]).After(plies, ticks) == target
        decreases |schedule| - ticks
      {
        if isGameOver || ticks == |schedule| {
          break;
        }
        ghost var before := State();
        var played, rejected := LoopTurn(schedule[ticks]);
        assert schedule[ticks..][1..] == schedule[ticks + 1..];
        RunLoopTurn(before, rules, schedule[ticks..], State());
        if played {
          plies := plies + 1;
        }
        ticks := ticks + 1;
        if rejected {
          aborted := true;
          break;
        }
      }
    }

    /** One turn of the loop of `startGameLoop`: a ply if playing, then the
        pause, during which the user may press play/pause or reset. */
    method LoopTurn(tick: Tick) returns (played: bool, rejected: bool)
      modifies this
      ensures played == old(isPlaying)
      ensures rejected == TickAborts(old(State()), rules, tick)
      ensures State() == TickStep(old(State()), rules, tick)
    {
      played, rejected := isPlaying, false;
      if isPlaying {
        ghost var before := State();
        var outcome := MakeMove(tick.snapshot, tick.sdk);
        InProgressOnlyWhenAborted(before, rules, tick.snapshot, tick.sdk);
        if outcome == Aborted {
          return true, true;
        }
        if outcome == Failed {
          ClearErrorMessage();
        }
      }
      if tick.togglePressed {
        TogglePlayPause();
      }
      if tick.resetPressed {
        ResetGame();
      }
    }

    /** `onDrop`: a human's drag from `from` to `to` of `piece`. The reply
        it starts (not awaited in the source) is modelled as running to
        completion with `snapshot` and `sdk`. */
    method OnDrop(from: string, to: string, piece: string, snapshot: Option<string>, sdk: Sdk)
      returns (result: DropResult)
      modifies this
      ensures (State(), result) == DropStep(old(State()), rules, from, to, piece, snapshot, sdk)
    {
      var move := rules.play(history, Drag(from, to, PromotionOf(piece)));
      if move.Throws? {
        return DropThrew;
      }
      var threw := RecordDrop(move);
      if threw {
        return DropThrew;
      }
      if move.Null? {
        return Dropped(false, None);
      }
      if rules.isGameOver(history) || rules.isDraw(history) {
        return Dropped(false, None);
      }
      if !IsAllHumanGame(players) {
        var outcome := MakeMove(snapshot, sdk);
        return Dropped(true, Some(outcome));
      }
      return Dropped(true, None);
    }

    /** The part of `onDrop` that records a drop the engine did not throw
        on: the history gains an applied move, and the log the last move. */
    method RecordDrop(move: MoveResult) returns (threw: bool)
      requires !move.Throws?
      modifies this
      ensures threw <==> LogDrop(old(State()), move).None?
      ensures State() == if threw then old(State()) else LogDrop(old(State()), move).value
    {
      if move.Applied? {
        history := history + [move.san];
      }
      var currentTurn := Opponent(Turn(history));
      if |history| == 0 {
        // `describeMove(undefined)` throws
        return true;
      }
      var moveString := SideName(currentTurn) + ": " + DescribeMove(history[|history| - 1]);
      log := log + [moveString];
      threw := false;
    }

    /** `isDraggablePiece`: only the pieces of the side to move, and only
        when that side is played by the human. */
    function IsDraggablePiece(piece: string): (draggable: bool)
      reads this
      ensures draggable <==>
        players.Of(Turn(history)).llm.model == HumanModel
        && |piece| > 0 && piece[0] == SideLetter(Turn(history))
      ensures draggable ==> IsHumanGame(players)
    {
      var turnKey := Turn(history);
      var model := players.Of(turnKey).llm.model;
      if turnKey == White && model == HumanModel then |piece| > 0 && piece[0] == 'w'
      else if turnKey == Black && model == HumanModel then |piece| > 0 && piece[0] == 'b'
      else false
    }
  }
}
