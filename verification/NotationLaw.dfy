/** What the notation says and why it refuses (`src/csa/notation.rs`), character by
    character, apart from the parser and the printer. */
module NotationLaw {
  import opened Wrappers
  import opened Position
  import opened Notation

  // ----------------------------------------------------------- what is shown

  /** The two letters of each kind, as the protocol lists them. */
  lemma LettersByName()
    ensures LettersOf(Pawn) == "FU" && LettersOf(Lance) == "KY" && LettersOf(Knight) == "KE"
    ensures LettersOf(Silver) == "GI" && LettersOf(Gold) == "KI" && LettersOf(Bishop) == "KA"
    ensures LettersOf(Rook) == "HI" && LettersOf(King) == "OU" && LettersOf(PromotedPawn) == "TO"
    ensures LettersOf(PromotedLance) == "NY" && LettersOf(PromotedKnight) == "NK"
    ensures LettersOf(PromotedSilver) == "NG" && LettersOf(PromotedBishop) == "UM"
    ensures LettersOf(PromotedRook) == "RY"
  {
  }

  /** The digits of a square: its file, then its rank. */
  predicate Names(text: string, s: Square) {
    |text| == 2 && text[0] as int == '0' as int + s.file && text[1] as int == '0' as int + s.rank
  }

  /** Seven characters: the sign, the origin or two zeros, the destination, the
      letters of the kind. */
  lemma ShownLayout(w: WrittenMove)
    ensures var line := Show(w);
            && |line| == 7
            && line[0] == (if w.color.Black? then '+' else '-')
            && (if w.from.Some? then Names(line[1..3], w.from.value) else line[1..3] == "00")
            && Names(line[3..5], w.to)
            && line[5..7] == LettersOf(w.kind)
  {
  }

  // ------------------------------------------------------ what is not a move

  predicate IsSign(c: char) {
    c == '+' || c == '-'
  }

  predicate NamesSquare(text: string) {
    |text| == 2 && '1' <= text[0] <= '9' && '1' <= text[1] <= '9'
  }

  /** A sign and six characters after it. */
  predicate Framed(line: string) {
    |line| == 7 && IsSign(line[0])
  }

  predicate HasOrigin(line: string) {
    Framed(line) && (line[1..3] == "00" || NamesSquare(line[1..3]))
  }

  /** What a line refused for each reason looks like. */
  ghost predicate Unreadable(line: string, e: ParseError) {
    match e
    case Length(got) => got == |line| && got < 7 && (line == "" || IsSign(line[0]))
    case Sign(found) => line != "" && found == line[0] && !IsSign(found)
    case Trailing => |line| > 7 && IsSign(line[0])
    case BadCoordinate(FromField, first, second) =>
      && Framed(line) && line[1] == first && line[2] == second
      && line[1..3] != "00" && !NamesSquare(line[1..3])
    case DropDestination => HasOrigin(line) && line[3..5] == "00"
    case BadCoordinate(ToField, first, second) =>
      && HasOrigin(line) && line[3] == first && line[4] == second
      && line[3..5] != "00" && !NamesSquare(line[3..5])
    case BadPiece(first, second) =>
      && HasOrigin(line) && NamesSquare(line[3..5]) && line[5] == first && line[6] == second
      && forall kind: PieceKind :: LettersOf(kind) != line[5..7]
  }

  lemma SquaresRead(endpoint: Endpoint, first: char, second: char)
    ensures ParseSquare(endpoint, first, second).Success? <==> NamesSquare([first, second])
    ensures !NamesSquare([first, second])
        ==> ParseSquare(endpoint, first, second) == Failure(BadCoordinate(endpoint, first, second))
  {
  }

  lemma LettersRead(first: char, second: char)
    ensures KindOf(first, second).None? <==> forall kind: PieceKind :: LettersOf(kind) != [first, second]
  {
    if KindOf(first, second).Some? {
      assert LettersOf(KindOf(first, second).value) == [first, second];
    }
    forall kind: PieceKind | LettersOf(kind) == [first, second] ensures KindOf(first, second) == Some(kind) {
      LettersRoundTrip(kind);
      assert LettersOf(kind)[0] == first && LettersOf(kind)[1] == second;
    }
  }

  /** A line is refused for a reason if and only if it looks so. */
  lemma UnreadableExactly(line: string, e: ParseError)
    ensures ParseMove(line) == Failure(e) <==> Unreadable(line, e)
  {
    if Framed(line) {
      assert line[1..3] == [line[1], line[2]] && line[3..5] == [line[3], line[4]] && line[5..7] == [line[5], line[6]];
      SquaresRead(FromField, line[1], line[2]);
      SquaresRead(ToField, line[3], line[4]);
      LettersRead(line[5], line[6]);
    }
    hide KindOf, LettersOf, ParseSquare, NamesSquare;
  }

  // ------------------------------------------------- against a position

  /** A written move denotes nothing in a position for just these reasons. */
  lemma UnresolvedExactly(w: WrittenMove, p: Position, e: ResolveError)
    ensures Resolve(w, p) == Failure(e)
       <==> match e
            case NotSideToMove(written, sideToMove) =>
              w.color != p.turn && written == w.color && sideToMove == p.turn
            case UndroppableKind(kind) =>
              && w.color == p.turn && w.from == None && kind == w.kind
              && kind !in {Rook, Bishop, Gold, Silver, Knight, Lance, Pawn}
            case EmptySquare(from) =>
              w.color == p.turn && w.from == Some(from) && from !in p.board
            case KindMismatch(from, written, found) =>
              && w.color == p.turn && w.from == Some(from) && from in p.board
              && written == w.kind && found == p.board[from].kind
              && written != found && Some(written) != found.Promoted()
  {
  }

  /** A move is written down with its own squares and the side given, unless there
      is no piece on its origin, or one that does not promote as it should. */
  lemma UnwrittenExactly(color: Color, mv: Move, p: Position, e: RenderError)
    ensures Of(color, mv, p) == Failure(e)
       <==> match e
            case NothingToMove(from) => mv.BoardMove? && from == mv.from && from !in p.board
            case NotPromotable(from, kind) =>
              && mv.BoardMove? && from == mv.from && from in p.board && mv.promote
              && kind == p.board[from].kind && kind !in {Rook, Bishop, Silver, Knight, Lance, Pawn}
    ensures Of(color, mv, p).Success? ==>
      var w := Of(color, mv, p).value;
      && w.color == color && w.to == mv.to
      && w.from == (if mv.BoardMove? then Some(mv.from) else None)
      && w.kind == match mv
                   case Drop(piece, _) => piece.ToPieceKind()
                   case BoardMove(from, _, promote) =>
                     if promote then p.board[from].kind.Promoted().value else p.board[from].kind
  {
  }
}
