/** CSA move notation (`src/csa/notation.rs`), after section 3 of the CSA server
    protocol, version 1.2.1: the text, the
    written move and the move it denotes, each found from the others. */
module Notation {
  import opened Wrappers
  import opened Position

  /** A move as written: the kind is the kind after the move. */
  datatype WrittenMove = WrittenMove(color: Color, from: Option<Square>, to: Square, kind: PieceKind)

  datatype Endpoint = FromField | ToField

  datatype ParseError =
    | Length(got: nat)
    | Trailing
    | Sign(found: char)
    | BadCoordinate(endpoint: Endpoint, first: char, second: char)
    | DropDestination
    | BadPiece(first: char, second: char)

  datatype ResolveError =
    | NotSideToMove(written: Color, sideToMove: Color)
    | EmptySquare(from: Square)
    | KindMismatch(from: Square, writtenKind: PieceKind, found: PieceKind)
    | UndroppableKind(kind: PieceKind)

  datatype RenderError =
    | NothingToMove(from: Square)
    | NotPromotable(from: Square, kind: PieceKind)

  // ------------------------------------------------------------- characters

  function SignOf(c: Color): (s: char) {
    if c.Black? then '+' else '-'
  }

  function LettersOf(kind: PieceKind): (s: string)
    ensures |s| == 2
  {
    match kind
    case Pawn => "FU"
    case Lance => "KY"
    case Knight => "KE"
    case Silver => "GI"
    case Gold => "KI"
    case Bishop => "KA"
    case Rook => "HI"
    case King => "OU"
    case PromotedPawn => "TO"
    case PromotedLance => "NY"
    case PromotedKnight => "NK"
    case PromotedSilver => "NG"
    case PromotedBishop => "UM"
    case PromotedRook => "RY"
  }

  function KindOf(first: char, second: char): (k: Option<PieceKind>) {
    if first == 'F' && second == 'U' then Some(Pawn)
    else if first == 'K' && second == 'Y' then Some(Lance)
    else if first == 'K' && second == 'E' then Some(Knight)
    else if first == 'G' && second == 'I' then Some(Silver)
    else if first == 'K' && second == 'I' then Some(Gold)
    else if first == 'K' && second == 'A' then Some(Bishop)
    else if first == 'H' && second == 'I' then Some(Rook)
    else if first == 'O' && second == 'U' then Some(King)
    else if first == 'T' && second == 'O' then Some(PromotedPawn)
    else if first == 'N' && second == 'Y' then Some(PromotedLance)
    else if first == 'N' && second == 'K' then Some(PromotedKnight)
    else if first == 'N' && second == 'G' then Some(PromotedSilver)
    else if first == 'U' && second == 'M' then Some(PromotedBishop)
    else if first == 'R' && second == 'Y' then Some(PromotedRook)
    else None
  }

  function Digit(c: char): (d: Option<int>) {
    if '0' <= c <= '9' then Some(c as int - '0' as int) else None
  }

  function DigitText(d: int): (c: char)
    requires 0 <= d <= 9
  {
    '0' + d as char
  }

  function ParseSquare(endpoint: Endpoint, first: char, second: char): (s: Result<Square, ParseError>) {
    var file, rank := Digit(first), Digit(second);
    if file.Some? && rank.Some? && NewSquare(file.value, rank.value).Some?
    then Success(NewSquare(file.value, rank.value).value)
    else Failure(BadCoordinate(endpoint, first, second))
  }

  // ---------------------------------------------------------------- parsing

  function ParseSign(c: char): (r: Result<Color, ParseError>) {
    if c == '+' then Success(Black) else if c == '-' then Success(White) else Failure(Sign(c))
  }

  /** The six characters after the sign. */
  function ParseFields(color: Color, rest: string): (r: Result<WrittenMove, ParseError>)
    requires |rest| == 6
  {
    var from :- if rest[0] == '0' && rest[1] == '0' then Success(None)
                else match ParseSquare(FromField, rest[0], rest[1])
                     case Success(s) => Success(Some(s))
                     case Failure(e) => Failure(e);
    if rest[2] == '0' && rest[3] == '0' then Failure(DropDestination)
    else
      var to :- ParseSquare(ToField, rest[2], rest[3]);
      match KindOf(rest[4], rest[5])
      case None => Failure(BadPiece(rest[4], rest[5]))
      case Some(kind) => Success(WrittenMove(color, from, to, kind))
  }

  function ParseMove(line: string): (r: Result<WrittenMove, ParseError>) {
    if line == "" then Failure(Length(0))
    else
      var color :- ParseSign(line[0]);
      if |line| > 7 then Failure(Trailing)
      else if |line| < 7 then Failure(Length(|line|))
      else ParseFields(color, line[1..])
  }

  /** `parse`: the buffer filled one character at a time. */
  method ParseLine(line: string) returns (r: Result<WrittenMove, ParseError>)
    ensures r == ParseMove(line)
  {
    if line == "" {
      return Failure(Length(0));
    }
    var color := ParseSign(line[0]);
    if color.Failure? {
      return Failure(color.error);
    }
    var rest := new char[6](_ => '\0');
    var count := 0;
    for i := 1 to |line|
      invariant count == i - 1 <= 6
      invariant forall k :: 0 <= k < count ==> rest[k] == line[k + 1]
    {
      if count == rest.Length {
        return Failure(Trailing);
      }
      rest[count] := line[i];
      count := count + 1;
    }
    if count < rest.Length {
      return Failure(Length(count + 1));
    }
    assert rest[..] == line[1..];
    return ParseFields(color.value, rest[..]);
  }

  // --------------------------------------------------------------- printing

  function SquareText(s: Option<Square>): (t: string) {
    if s.Some? then [DigitText(s.value.file), DigitText(s.value.rank)] else "00"
  }

  function Show(w: WrittenMove): (line: string) {
    [SignOf(w.color)] + SquareText(w.from) + SquareText(Some(w.to)) + LettersOf(w.kind)
  }

  // ----------------------------------------------- against a position

  /** How a side writes a move down, given what stands on its origin; a promoting
      move is written with the promoted kind. */
  function Of(color: Color, mv: Move, p: Position): (w: Result<WrittenMove, RenderError>) {
    match mv
    case Drop(piece, to) => Success(WrittenMove(color, None, to, piece.ToPieceKind()))
    case BoardMove(from, to, promote) =>
      if p.PieceAt(from).None? then Failure(NothingToMove(from))
      else
        var kind := p.PieceAt(from).value.kind;
        if !promote then Success(WrittenMove(color, Some(from), to, kind))
        else if kind.Promoted().None? then Failure(NotPromotable(from, kind))
        else Success(WrittenMove(color, Some(from), to, kind.Promoted().value))
  }

  /** The move the text denotes in `p`. */
  function Resolve(w: WrittenMove, p: Position): (mv: Result<Move, ResolveError>) {
    if w.color != p.turn then Failure(NotSideToMove(w.color, p.turn))
    else match w.from
      case None =>
        if FromPieceKind(w.kind).None? then Failure(UndroppableKind(w.kind))
        else Success(Drop(FromPieceKind(w.kind).value, w.to))
      case Some(from) =>
        if p.PieceAt(from).None? then Failure(EmptySquare(from))
        else
          var found := p.PieceAt(from).value.kind;
          if w.kind == found then Success(BoardMove(from, w.to, false))
          else if found.Promoted() == Some(w.kind) then Success(BoardMove(from, w.to, true))
          else Failure(KindMismatch(from, w.kind, found))
  }

  // ------------------------------------------------------------- bijections

  lemma LettersRoundTrip(kind: PieceKind)
    ensures KindOf(LettersOf(kind)[0], LettersOf(kind)[1]) == Some(kind)
  {
  }

  /** Every written move reads back as itself. */
  lemma ShownMovesParse(w: WrittenMove)
    ensures ParseMove(Show(w)) == Success(w)
  {
  }

  /** Every accepted line is the one way to write its move. */
  lemma ParsedLinesShow(line: string)
    requires ParseMove(line).Success?
    ensures Show(ParseMove(line).value) == line
  {
  }

  /** A move written by the side to move denotes that move, and only so. */
  lemma WrittenMovesResolve(mv: Move, p: Position, w: WrittenMove)
    ensures Of(p.turn, mv, p) == Success(w) <==> Resolve(w, p) == Success(mv)
  {
  }
}
