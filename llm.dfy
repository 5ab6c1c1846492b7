/** `getNextMove`: asks the language model configured for the side to move
    to pick one of the numbered candidate moves. The provider SDK (client
    factories, model handles and the text-generation call) is an oracle
    `Sdk`; everything around it is modelled. */
module Llm {
  import opened Wrappers
  import opened Text
  import opened Models

  /** The SDK client factories the provider table can select. */
  datatype Factory = CreateOpenAI | CreateGoogleGenerativeAI | CreateAnthropic | CreateMistral

  /** `NextMoveInput`. */
  datatype NextMoveInput = NextMoveInput(
    currentStateImage: string,
    allMoves: seq<string>,
    provider: Provider,
    model: string,
    color: Side,
    lastMove: string,
    apiKey: string)

  /** The one text-generation request, given by the data it is built from:
      the client (factory and key), the model name, the side to move, the
      last move, the candidate moves and the board image. The texts it
      carries are `System()` and `Prompt()`. */
  datatype Request = Request(
    factory: Factory, apiKey: string, model: string,
    color: Side, lastMove: string, allMoves: seq<string>, image: string)
  {
    /** The system message. */
    function System(): string
    {
      SystemPrompt(color)
    }

    /** The text part of the user message (its image part is `image`). */
    function Prompt(): string
    {
      UserPrompt(color, lastMove, allMoves)
    }
  }

  /** How the text-generation call settles: with the reply's text, or by throwing. */
  datatype Reply = Completion(text: string) | Rejected(reason: string)

  /** The SDK as an oracle: creating the client and its model handle may
      throw (`Some(message)`), and the generation call settles as it will.
      Both also see the attempt they belong to: the number of earlier
      `getNextMove` calls in the same ply (0 for the first, 1 for a retry, and
      so on). So a second call for the same request may settle differently
      from the first, and whether it was made is observable. */
  datatype Sdk = Sdk(
    languageModel: (Factory, string, string, nat) -> Option<string>,
    generateText: (Request, nat) -> Reply)

  /** What `getNextMove` resolves to (an integer, or NaN) or throws. */
  datatype NextMove = Index(value: int) | NaN | Error(message: string)

  /** The message every failure inside the `try` is replaced by. */
  const LlmErrorMessage := "LLM Error, make sure api key is correct,"

  /** The `llms` provider table; Human maps to null. */
  function FactoryTable(provider: Provider): (factory: Option<Factory>)
    ensures factory == None <==> provider == Human
  {
    match provider
    case OpenAI => Some(CreateOpenAI)
    case Google => Some(CreateGoogleGenerativeAI)
    case Anthropic => Some(CreateAnthropic)
    case Mistral => Some(CreateMistral)
    case Human => None
  }

  /** The provider whose SDK package a factory comes from. */
  function FactoryProvider(factory: Factory): Provider
  {
    match factory
    case CreateOpenAI => OpenAI
    case CreateGoogleGenerativeAI => Google
    case CreateAnthropic => Anthropic
    case CreateMistral => Mistral
  }

  /** `llms[provider] ?? createOpenAI`: every provider gets its own factory,
      and Human, whose table entry is null, falls back to OpenAI's. */
  function SelectFactory(provider: Provider): (factory: Factory)
    ensures FactoryProvider(factory) == if provider == Human then OpenAI else provider
  {
    FactoryTable(provider).GetOr(CreateOpenAI)
  }

  const SystemIntro := "You are one of the best chess players in the world.\n    You are playing as \""
  const SystemRest := "\". You are gievn the image of the current chessboard state. Carefully think of all the possible moves and consequences.\n    The objective is to win the game so come up with the best possible move to give the best chance of winning. After thinking deeply, come up with your next move."

  /** The system prompt. */
  function SystemPrompt(color: Side): string
  {
    SystemIntro + SideName(color) + SystemRest
  }

  /** The system prompt names the side it plays, so the two sides' prompts differ. */
  lemma SystemPromptNamesSide()
    ensures SystemPrompt(White) != SystemPrompt(Black)
  {
    assert SystemPrompt(White)[|SystemIntro|] == 'W';
    assert SystemPrompt(Black)[|SystemIntro|] == 'B';
  }

  /** The candidate lines, `${index + 1} - ${move}`. */
  function CandidateLines(allMoves: seq<string>): seq<string>
  {
    seq(|allMoves|, i requires 0 <= i < |allMoves| => NatToString(i + 1) + " - " + allMoves[i])
  }

  /** The candidate block: the candidate lines joined by line breaks. */
  function CandidateBlock(allMoves: seq<string>): string
  {
    Join(CandidateLines(allMoves), '\n')
  }

  /** Reading the block back line by line recovers the candidates: splitting
      at line breaks gives back exactly the lines `<i + 1> - <move i>`, one
      per move in input order; the number at the head of line `i` reads back
      as `i + 1`, and the line ends with the move itself. */
  lemma CandidateBlockReadBack(allMoves: seq<string>)
    requires |allMoves| >= 1
    requires forall i :: 0 <= i < |allMoves| ==> '\n' !in allMoves[i]
    ensures Split(CandidateBlock(allMoves), '\n') == CandidateLines(allMoves)
    ensures var lines := Split(CandidateBlock(allMoves), '\n');
      && |lines| == |allMoves|
      && forall i :: 0 <= i < |allMoves| ==>
           && ParseInt(lines[i]) == Some(i + 1)
           && |allMoves[i]| <= |lines[i]|
           && lines[i][|lines[i]| - |allMoves[i]|..] == allMoves[i]
  {
    var lines := CandidateLines(allMoves);
    CandidateLinesReadBack(allMoves);
    SplitJoin(lines, '\n');
    assert Split(CandidateBlock(allMoves), '\n') == lines;
  }

  /** Each candidate line on its own reads back as its number and move. */
  lemma CandidateLinesReadBack(allMoves: seq<string>)
    requires forall i :: 0 <= i < |allMoves| ==> '\n' !in allMoves[i]
    ensures var lines := CandidateLines(allMoves);
      forall i :: 0 <= i < |lines| ==>
        && '\n' !in lines[i]
        && ParseInt(lines[i]) == Some(i + 1)
        && |allMoves[i]| <= |lines[i]| && lines[i][|lines[i]| - |allMoves[i]|..] == allMoves[i]
  {
    var lines := CandidateLines(allMoves);
    forall i | 0 <= i < |lines|
      ensures '\n' !in lines[i]
      ensures ParseInt(lines[i]) == Some(i + 1)
      ensures |allMoves[i]| <= |lines[i]| && lines[i][|lines[i]| - |allMoves[i]|..] == allMoves[i]
    {
      assert lines[i] == NatToString(i + 1) + " - " + allMoves[i];
      CandidateLineReadBack(i + 1, allMoves[i]);
    }
  }

  /** One candidate line: the number reads back, the move ends the line, and
      the line has no line break of its own. */
  lemma CandidateLineReadBack(number: nat, move: string)
    requires '\n' !in move
    ensures var line := NatToString(number) + " - " + move;
      && '\n' !in line
      && ParseInt(line) == Some(number)
      && |move| <= |line| && line[|line| - |move|..] == move
  {
    var digits := NatToString(number);
    var rest := " - " + move;
    assert rest[0] == ' ';
    ParseIntToString(number, rest);
    assert IntToString(number) == digits;
    assert '\n' !in digits by {
      forall i | 0 <= i < |digits| ensures digits[i] != '\n' {
        assert IsDigit(digits[i], 10);
      }
    }
    NumberedLine(digits, move);
  }

  /** The shape of a line `<number> - <move>`. */
  lemma NumberedLine(digits: string, move: string)
    requires '\n' !in digits && '\n' !in move
    ensures var line := digits + " - " + move;
      && line == digits + (" - " + move)
      && '\n' !in line
      && |move| <= |line| && line[|line| - |move|..] == move
  {
    var line := digits + " - " + move;
    assert line == (digits + " - ") + move;
  }

  const UserIntro := "The provided image is the current state of the chess game between you and another top player. You are playing as \""
  const UserLastMove := "\". Now it is your turn to make a move, which will give you the best chance of winning the game. The moves are in conventional chess algebric notation. The last move was \""
  const UserRange := "\". The following are all the moves available for you. Each move is numbered "
  const UserListOpen := ".\n    ---\n    "
  const UserListClose := "\n    ---\n    Now think very deeply and carefully about all your possible moves and their consequences. After thinking very deeply, just output the number of the move that you think will give you the best chance of winning the game. Your output must be JUST THE NUMBER of the best move, nothing else. No explanation required, JUST OUTPUT THE NUMBER of the best move. The number of the best move for you is(MUST be A NUMBER "
  const UserEnd := "): "

  /** The stated range of answers, "from 1 to <count>". */
  function RangeText(count: nat): string
  {
    "from 1 to " + NatToString(count)
  }

  /** The part of the user prompt before the last move. */
  function UserPromptHead(color: Side): string
  {
    UserIntro + SideName(color) + UserLastMove
  }

  /** The part of the user prompt after the last move. */
  function UserPromptTail(allMoves: seq<string>): string
  {
    UserRange + RangeText(|allMoves|) + UserList(allMoves) + RangeText(|allMoves|) + UserEnd
  }

  /** The candidate block between its separators and the closing instructions. */
  function UserList(allMoves: seq<string>): string
  {
    UserListOpen + CandidateBlock(allMoves) + UserListClose
  }

  /** The user prompt. */
  function UserPrompt(color: Side, lastMove: string, allMoves: seq<string>): string
  {
    UserPromptHead(color) + lastMove + UserPromptTail(allMoves)
  }

  /** Needle `n` occurs in `s` at offset `at`. */
  predicate OccursAt(n: string, s: string, at: nat)
  {
    at + |n| <= |s| && s[at..at + |n|] == n
  }

  lemma OccursInMiddle(a: string, x: string, b: string)
    ensures OccursAt(x, a + x + b, |a|)
  {
    assert (a + x + b)[|a|..|a| + |x|] == x;
  }

  /** The user prompt embeds the side and the last move verbatim, at places
      fixed by the side alone. */
  lemma UserPromptEmbeds(color: Side, lastMove: string, allMoves: seq<string>)
    ensures OccursAt(SideName(color), UserPrompt(color, lastMove, allMoves), |UserIntro|)
    ensures OccursAt(lastMove, UserPrompt(color, lastMove, allMoves), |UserPromptHead(color)|)
  {
    EmbedsTwo(UserIntro, SideName(color), UserLastMove, lastMove, UserPromptTail(allMoves));
  }

  lemma EmbedsTwo(a: string, x: string, b: string, y: string, c: string)
    ensures OccursAt(x, a + x + b + y + c, |a|)
    ensures OccursAt(y, a + x + b + y + c, |a + x + b|)
  {
    var s := a + x + b + y + c;
    assert s == a + x + (b + y + c);
    OccursInMiddle(a, x, b + y + c);
    OccursInMiddle(a + x + b, y, c);
  }

  /** Prompts that differ only in the last move differ. */
  lemma UserPromptDeterminesLastMove(color: Side, lastMove: string, other: string, allMoves: seq<string>)
    requires UserPrompt(color, other, allMoves) == UserPrompt(color, lastMove, allMoves)
    ensures other == lastMove
  {
    Cancel(UserPromptHead(color), other, lastMove, UserPromptTail(allMoves));
  }

  lemma Cancel(a: string, x: string, y: string, c: string)
    requires a + x + c == a + y + c
    ensures x == y
  {
    var p, q := a + x + c, a + y + c;
    assert |x| == |y|;
    assert x == p[|a|..|a| + |x|];
    assert y == q[|a|..|a| + |y|];
  }

  /** The user prompt states the range of valid answers twice, before and
      after the candidate block. */
  lemma UserPromptStatesRangeTwice(color: Side, lastMove: string, allMoves: seq<string>)
    ensures var p := UserPrompt(color, lastMove, allMoves);
      var range := RangeText(|allMoves|);
      exists i: nat, j: nat :: i < j && OccursAt(range, p, i) && OccursAt(range, p, j)
  {
    var range := RangeText(|allMoves|);
    assert |range| >= 10;
    OccursTwice(UserPromptHead(color), lastMove, UserRange, range, UserList(allMoves), UserEnd);
    assert UserPrompt(color, lastMove, allMoves)
        == UserPromptHead(color) + lastMove + (UserRange + range + UserList(allMoves) + range + UserEnd);
  }

  lemma OccursTwice(a: string, l: string, u: string, x: string, b: string, c: string)
    requires x != ""
    ensures exists i: nat, j: nat :: i < j && OccursAt(x, a + l + (u + x + b + x + c), i)
                                           && OccursAt(x, a + l + (u + x + b + x + c), j)
  {
    var s := a + l + (u + x + b + x + c);
    var i, j := |a| + |l| + |u|, |a| + |l| + |u| + |x| + |b|;
    assert s == (a + l + u) + x + (b + x + c);
    assert s[i..i + |x|] == x;
    assert s == (a + l + u + x + b) + x + c;
    assert s[j..j + |x|] == x;
    assert OccursAt(x, s, i) && OccursAt(x, s, j);
  }

  /** The request `getNextMove` sends: the client for the provider's factory
      and the key, the model name, and the messages built from the side, the
      last move, the candidates and the board image. */
  function BuildRequest(input: NextMoveInput): Request
  {
    Request(SelectFactory(input.provider), input.apiKey, input.model,
            input.color, input.lastMove, input.allMoves, input.currentStateImage)
  }

  /** `getNextMove(input)`, as the call numbered `attempt` within its ply:
      the client and model handle are created outside the `try`, so their
      errors propagate as they are; inside it, one generation call is made
      and any failure becomes `LlmErrorMessage`; the reply is read with
      `parseInt` and lowered by one. */
  function GetNextMove(input: NextMoveInput, sdk: Sdk, attempt: nat): NextMove
  {
    match sdk.languageModel(SelectFactory(input.provider), input.apiKey, input.model, attempt)
    case Some(error) => Error(error)
    case None =>
      match sdk.generateText(BuildRequest(input), attempt)
      case Rejected(_) => Error(LlmErrorMessage)
      case Completion(text) =>
        match ParseInt(text)
        case Some(k) => Index(k - 1)
        case None => NaN
  }

  /** A reply `k` (the numeral of `k`, possibly followed by text that cannot
      extend it) yields index `k - 1`; in particular the numeral of a listed
      line number `i + 1` yields the candidate's own index `i`. */
  lemma ReplyIndex(input: NextMoveInput, sdk: Sdk, attempt: nat, k: int, rest: string)
    requires sdk.languageModel(SelectFactory(input.provider), input.apiKey, input.model, attempt) == None
    requires sdk.generateText(BuildRequest(input), attempt) == Completion(IntToString(k) + rest)
    requires rest == "" || !IsDigit(rest[0], 10)
    requires k == 0 && rest != "" ==> rest[0] != 'x' && rest[0] != 'X'
    ensures GetNextMove(input, sdk, attempt) == Index(k - 1)
  {
    ParseIntToString(k, rest);
  }

  /** A reply yields NaN, rather than an index or an error, exactly when
      it has no number for `parseInt` to read. */
  lemma ReplyWithoutNumber(input: NextMoveInput, sdk: Sdk, attempt: nat, text: string)
    requires sdk.languageModel(SelectFactory(input.provider), input.apiKey, input.model, attempt) == None
    requires sdk.generateText(BuildRequest(input), attempt) == Completion(text)
    ensures GetNextMove(input, sdk, attempt) == NaN <==> NoLeadingNumber(text)
  {
    ParseIntNaN(text);
  }

  /** Errors: a failing client or model creation propagates with its own
      message; a failing generation call is reported with the fixed message. */
  lemma ErrorWrapping(input: NextMoveInput, sdk: Sdk, attempt: nat)
    ensures var setup := sdk.languageModel(SelectFactory(input.provider), input.apiKey, input.model, attempt);
      && (setup.Some? ==> GetNextMove(input, sdk, attempt) == Error(setup.value))
      && (setup.None? && sdk.generateText(BuildRequest(input), attempt).Rejected? ==>
            GetNextMove(input, sdk, attempt) == Error(LlmErrorMessage))
    ensures GetNextMove(input, sdk, attempt).Error? ==>
      GetNextMove(input, sdk, attempt).message == LlmErrorMessage
      || sdk.languageModel(SelectFactory(input.provider), input.apiKey, input.model, attempt).Some?
  {
  }

  /** There is exactly one generation call and no retry inside
      `getNextMove`: the result depends on the SDK only through its answers
      for this request at this attempt, so two SDKs that differ at every
      other attempt give the same result. */
  lemma OneBackendCall(input: NextMoveInput, sdk1: Sdk, sdk2: Sdk, attempt: nat)
    requires var f := SelectFactory(input.provider);
      sdk1.languageModel(f, input.apiKey, input.model, attempt) == sdk2.languageModel(f, input.apiKey, input.model, attempt)
    requires sdk1.generateText(BuildRequest(input), attempt) == sdk2.generateText(BuildRequest(input), attempt)
    ensures GetNextMove(input, sdk1, attempt) == GetNextMove(input, sdk2, attempt)
  {
  }
}
