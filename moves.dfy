/** `describeMove`: the English phrase shown in the move log and sent to the
    language model for one move token of the rules engine. */
module Moves {
  import opened Wrappers
  import opened Text

  /** The `pieceNames` lookup table. */
  function PieceName(c: char): (name: Option<string>)
    ensures name.Some? <==> c in "KQRBNP"
  {
    match c
    case 'K' => Some("King")
    case 'Q' => Some("Queen")
    case 'R' => Some("Rook")
    case 'B' => Some("Bishop")
    case 'N' => Some("Knight")
    case 'P' => Some("Pawn")
    case _ => None
  }

  /** One of the six piece names. */
  predicate IsPieceWord(w: string)
  {
    w == "King" || w == "Queen" || w == "Rook" || w == "Bishop" || w == "Knight" || w == "Pawn"
  }

  /** The word for a piece letter, "Pawn" for anything the table lacks. */
  function PieceWord(c: char): (w: string)
    ensures IsPieceWord(w)
  {
    PieceName(c).GetOr("Pawn")
  }

  /** The word for the first character of `s`; an empty `s` has an undefined
      first character, which is not in the table either. */
  function LeadPiece(s: string): (w: string)
    ensures IsPieceWord(w)
    ensures s == "" || PieceName(s[0]).None? ==> w == "Pawn"
    ensures s != "" && PieceName(s[0]).Some? ==> w == PieceName(s[0]).value
  {
    if s == "" then "Pawn" else PieceWord(s[0])
  }

  /** `s.slice(1, -1)`: `s` without its first and last character. */
  function SliceInner(s: string): (r: string)
    ensures |s| >= 2 ==> s == [s[0]] + r + [s[|s| - 1]]
    ensures |s| < 2 ==> r == ""
  {
    if |s| >= 2 then s[1..|s| - 1] else ""
  }

  /** `c.toLowerCase()` and `c.toUpperCase()` for one character; only the
      ASCII letters change. */
  function LowerChar(c: char): char
  {
    if 'A' <= c <= 'Z' then (c as int + 32) as char else c
  }

  function UpperChar(c: char): char
  {
    if 'a' <= c <= 'z' then (c as int - 32) as char else c
  }

  /** `describeMove(move)`, branch for branch in the order the source tests
      them: the castling literals, a capture, a check, a mate, the promotion
      pattern, and the plain move. */
  function DescribeMove(move: string): string
  {
    if move == "0-0" then "King castles kingside"
    else if move == "0-0-0" then "King castles queenside"
    else if 'x' in move then
      var parts := Split(move, 'x');
      LeadPiece(parts[0]) + " captures on " + parts[1]
    else if '+' in move then
      LeadPiece(move) + " moves to " + SliceInner(move) + " with check"
    else if '#' in move then
      LeadPiece(move) + " moves to " + SliceInner(move) + " and delivers checkmate"
    else if |move| == 5 && move[0] == 'P' && LowerChar(move[4]) == '=' then
      "Pawn promotes to " + PieceName(UpperChar(move[4])).GetOr("Queen")
    else
      var isPawn := move == "" || PieceName(move[0]).None?;
      LeadPiece(move) + " moves to " + (if isPawn then move else move[1..])
  }

  /** Every description, of any token including the empty one, begins with
      the name of a piece: it is that name followed by the rest of the phrase. */
  lemma DescribeMoveNamesPiece(move: string) returns (w: string, tail: string)
    ensures IsPieceWord(w) && DescribeMove(move) == w + tail
  {
    if move == "0-0" {
      w, tail := "King", " castles kingside";
    } else if move == "0-0-0" {
      w, tail := "King", " castles queenside";
    } else {
      var verb, rest;
      w, verb, rest := DescriptionParts(move);
      tail := verb + rest;
      ConcatAssoc(w, verb, rest);
    }
  }

  /** The characters that tell two phrases `<piece> <verb> ...` apart. */
  lemma PhraseShape(w: string, verb: string, rest: string)
    requires IsPieceWord(w) && |verb| >= 4
    ensures (w + verb + rest)[..4] == w[..4]
    ensures (w + verb + rest)[|w| + 3] == verb[3]
  {
  }

  /** The first four letters of a piece name tell the King and the Pawn apart
      from every other piece. */
  lemma PieceWordHead(w: string)
    requires IsPieceWord(w)
    ensures w[..4] == "King" <==> w == "King"
    ensures w[..4] == "Pawn" <==> w == "Pawn"
  {
    if w == "Knight" {
      assert w[..4][1] != "King"[1];
    }
    if w != "King" && w != "Pawn" {
      assert w[..4][0] != 'K' || w[..4][1] != 'i';
      assert w[..4][0] != 'P';
    }
  }

  /** Every description but the two castling phrases reads
      `<piece><verb><rest>`, and only the promotion branch uses " promotes to ". */
  lemma DescriptionParts(move: string) returns (w: string, verb: string, rest: string)
    requires move != "0-0" && move != "0-0-0"
    ensures IsPieceWord(w)
    ensures verb == " captures on " || verb == " moves to " || verb == " promotes to "
    ensures verb == " promotes to " ==>
              w == "Pawn" && |move| == 5 && move[0] == 'P' && LowerChar(move[4]) == '='
              && 'x' !in move && '+' !in move && '#' !in move
    ensures DescribeMove(move) == w + verb + rest
  {
    if 'x' in move {
      var parts := Split(move, 'x');
      w, verb, rest := LeadPiece(parts[0]), " captures on ", parts[1];
      CaptureBranch(move);
    } else if '+' in move {
      w, verb, rest := LeadPiece(move), " moves to ", SliceInner(move) + " with check";
      CheckBranch(move);
    } else if '#' in move {
      w, verb, rest := LeadPiece(move), " moves to ", SliceInner(move) + " and delivers checkmate";
      MateBranch(move);
    } else if |move| == 5 && move[0] == 'P' && LowerChar(move[4]) == '=' {
      w, verb, rest := "Pawn", " promotes to ", PieceName(UpperChar(move[4])).GetOr("Queen");
      PromotionBranch(move);
    } else {
      var isPawn := move == "" || PieceName(move[0]).None?;
      w, verb, rest := LeadPiece(move), " moves to ", if isPawn then move else move[1..];
      PlainBranch(move);
    }
  }

  // The branches of `DescribeMove`, one at a time.

  lemma CaptureBranch(move: string)
    requires move != "0-0" && move != "0-0-0" && 'x' in move
    ensures DescribeMove(move) == LeadPiece(Split(move, 'x')[0]) + " captures on " + Split(move, 'x')[1]
  {
  }

  lemma CheckBranch(move: string)
    requires move != "0-0" && move != "0-0-0" && 'x' !in move && '+' in move
    ensures DescribeMove(move) == LeadPiece(move) + " moves to " + (SliceInner(move) + " with check")
  {
  }

  lemma MateBranch(move: string)
    requires move != "0-0" && move != "0-0-0" && 'x' !in move && '+' !in move && '#' in move
    ensures DescribeMove(move) == LeadPiece(move) + " moves to " + (SliceInner(move) + " and delivers checkmate")
  {
  }

  lemma PromotionBranch(move: string)
    requires move != "0-0" && move != "0-0-0" && 'x' !in move && '+' !in move && '#' !in move
    requires |move| == 5 && move[0] == 'P' && LowerChar(move[4]) == '='
    ensures DescribeMove(move) == "Pawn" + " promotes to " + PieceName(UpperChar(move[4])).GetOr("Queen")
  {
  }

  lemma PlainBranch(move: string)
    requires move != "0-0" && move != "0-0-0" && 'x' !in move && '+' !in move && '#' !in move
    requires !(|move| == 5 && move[0] == 'P' && LowerChar(move[4]) == '=')
    ensures DescribeMove(move)
         == LeadPiece(move) + " moves to " + (if move == "" || PieceName(move[0]).None? then move else move[1..])
  {
  }

  /** A `<piece><verb><rest>` phrase is neither castling phrase. */
  lemma NotCastlingPhrase(w: string, verb: string, rest: string)
    requires IsPieceWord(w)
    requires verb == " captures on " || verb == " moves to " || verb == " promotes to "
    ensures w + verb + rest != "King castles kingside"
    ensures w + verb + rest != "King castles queenside"
  {
    var r := w + verb + rest;
    PhraseShape(w, verb, rest);
    PieceWordHead(w);
    if w == "King" {
      assert r[7] != 's';
    } else {
      assert r[..4] != "King";
    }
  }

  /** A `<piece><verb><rest>` phrase is the promotion phrase only when the
      piece is the Pawn and the verb " promotes to ". */
  lemma PromotionPhrase(w: string, verb: string, rest: string)
    requires IsPieceWord(w)
    requires verb == " captures on " || verb == " moves to " || verb == " promotes to "
    requires w + verb + rest == "Pawn promotes to Queen"
    ensures verb == " promotes to "
  {
    var r := w + verb + rest;
    PhraseShape(w, verb, rest);
    PieceWordHead(w);
    assert r[..4] == "Pawn";
    assert r[7] == 'o';
  }

  /** Only the digit-zero literals are castling: the letter-O forms of
      Standard Algebraic Notation fall through to the plain-move branch. */
  lemma CastlingOnlyZeroForms(move: string)
    ensures DescribeMove(move) == "King castles kingside" <==> move == "0-0"
    ensures DescribeMove(move) == "King castles queenside" <==> move == "0-0-0"
  {
    if move != "0-0" && move != "0-0-0" {
      var w, verb, rest := DescriptionParts(move);
      NotCastlingPhrase(w, verb, rest);
    }
  }

  /** A capture: `<from>x<to>` followed by nothing or by a further `x` is
      described by the piece of `from`'s first character and by `to`, the
      text between the first and the second `x`, whatever check or mate
      marker `to` carries. */
  lemma CaptureDescription(from: string, to: string, rest: string)
    requires 'x' !in from && 'x' !in to
    requires rest == "" || rest[0] == 'x'
    ensures DescribeMove(from + "x" + to + rest) == LeadPiece(from) + " captures on " + to
  {
    var move := from + "x" + to + rest;
    assert move[|from|] == 'x';
    SplitFirstTwo(from, to, rest, 'x');
  }

  /** The capture test comes before the check test. */
  lemma CaptureBeatsCheck()
    ensures DescribeMove("Nxe5+") == "Knight captures on e5+"
  {
    CaptureDescription("N", "e5+", "");
    KnightCaptureLiterals();
  }

  lemma KnightCaptureLiterals()
    ensures "N" + "x" + "e5+" + "" == "Nxe5+"
    ensures LeadPiece("N") + " captures on " + "e5+" == "Knight captures on e5+"
  {
    assert LeadPiece("N") == "Knight";
  }

  /** A check without capture: the piece of the first character, moving to
      the token without its first and last character. A token of fewer than
      two characters, such as a lone `+`, is a pawn moving to "". */
  lemma CheckDescription(move: string)
    requires '+' in move && 'x' !in move
    ensures DescribeMove(move) == LeadPiece(move) + " moves to " + SliceInner(move) + " with check"
    ensures |move| >= 2 ==> DescribeMove(move) == PieceWord(move[0]) + " moves to " + move[1..|move| - 1] + " with check"
  {
    assert move != "0-0" && move != "0-0-0";
    CheckBranch(move);
    InnerPhrase(move, " with check");
  }

  /** A mate without capture or check marker, described the same way. */
  lemma MateDescription(move: string)
    requires '#' in move && 'x' !in move && '+' !in move
    ensures DescribeMove(move) == LeadPiece(move) + " moves to " + SliceInner(move) + " and delivers checkmate"
    ensures |move| >= 2 ==>
      DescribeMove(move) == PieceWord(move[0]) + " moves to " + move[1..|move| - 1] + " and delivers checkmate"
  {
    assert move != "0-0" && move != "0-0-0";
    MateBranch(move);
    InnerPhrase(move, " and delivers checkmate");
  }

  /** The check and mate phrases of a token of two or more characters. */
  lemma InnerPhrase(move: string, suffix: string)
    ensures |move| >= 2 ==>
      LeadPiece(move) + " moves to " + SliceInner(move) + suffix
        == PieceWord(move[0]) + " moves to " + move[1..|move| - 1] + suffix
  {
  }

  /** The promotion phrase arises exactly from five-character tokens that
      start with `P`, have `=` as fifth character and carry no capture, check
      or mate marker; the promoted piece is looked up at that `=`, so it is
      always the Queen. */
  lemma PromotionDescription(move: string)
    ensures DescribeMove(move) == "Pawn promotes to Queen"
        <==> |move| == 5 && move[0] == 'P' && move[4] == '='
             && 'x' !in move && '+' !in move && '#' !in move
  {
    if move == "0-0" || move == "0-0-0" {
      assert DescribeMove(move)[0] == 'K';
    } else {
      var w, verb, rest := DescriptionParts(move);
      if w + verb + rest == "Pawn promotes to Queen" {
        PromotionPhrase(w, verb, rest);
        assert LowerChar(move[4]) == '=';
      }
      if |move| == 5 && move[0] == 'P' && move[4] == '=' && 'x' !in move && '+' !in move && '#' !in move {
        PromotionBranch(move);
        PromotionToQueen();
      }
    }
  }

  /** A promotion marker that is not a piece letter names the queen. */
  lemma PromotionToQueen()
    ensures LowerChar('=') == '='
    ensures "Pawn" + " promotes to " + PieceName(UpperChar('=')).GetOr("Queen") == "Pawn promotes to Queen"
  {
  }

  /** A plain move of a named piece: the piece, then the rest of the token. */
  lemma PlainPieceMove(c: char, dest: string)
    requires PieceName(c).Some?
    requires var move := [c] + dest; 'x' !in move && '+' !in move && '#' !in move
    requires !(c == 'P' && |dest| == 4 && dest[3] == '=')
    ensures DescribeMove([c] + dest) == PieceName(c).value + " moves to " + dest
  {
    var move := [c] + dest;
    assert move[0] == c && move[1..] == dest;
    assert move != "0-0" && move != "0-0-0";
  }

  /** A plain token that does not start with a piece letter (a pawn move,
      the empty token, or the letter-O castling of Standard Algebraic
      Notation) is described as a pawn moving to the whole token. */
  lemma PlainPawnMove(move: string)
    requires move == "" || PieceName(move[0]).None?
    requires 'x' !in move && '+' !in move && '#' !in move
    requires move != "0-0" && move != "0-0-0"
    ensures DescribeMove(move) == "Pawn moves to " + move
  {
  }

  lemma LetterCastlingIsNotCastling()
    ensures DescribeMove("O-O") == "Pawn moves to O-O"
    ensures DescribeMove("O-O-O") == "Pawn moves to O-O-O"
  {
    PlainPawnMove("O-O");
    PlainPawnMove("O-O-O");
  }
}
