/** Why a move is refused (`src/game/legality.rs`, lines 236-359): each refusal in
    the terms of the law of moves, with the squares, kind or file it names. */
module Refusals {
  import opened Wrappers
  import opened Position
  import opened Movement
  import opened MovementShapes
  import opened Legality
  import opened LawOfMoves

  // ---------------------------------------------------------------- the law

  predicate OwnOn(p: Position, s: Square) {
    s in p.board && p.board[s].color == p.turn
  }

  /** The move takes a piece of the mover's to a square not held by another. */
  predicate Attempted(p: Position, mv: Move) {
    mv.BoardMove? && OwnOn(p, mv.from) && !OwnOn(p, mv.to)
  }

  /** The displacement is one its piece makes on an empty board. */
  predicate HasItsShape(p: Position, mv: Move)
    requires mv.BoardMove? && mv.from in p.board
  {
    Shape(p.board[mv.from].kind, Side(mv.from, mv.to), Ahead(mv.from, mv.to, p.turn))
  }

  predicate Arriveable(p: Position, mv: Move) {
    Attempted(p, mv) && Bears(p.board, mv.from, mv.to)
  }

  predicate Held(p: Position, mv: Move) {
    mv.Drop? && CountOf(p.HandOf(p.turn), mv.piece) > 0
  }

  /** What the law says of a move refused for each reason. */
  ghost predicate Refuses(p: Position, mv: Move, e: Illegal) {
    match e
    case EmptySquare(s) => mv.BoardMove? && s == mv.from && s !in p.board
    case NotOwnPiece(s) => mv.BoardMove? && s == mv.from && s in p.board && p.board[s].color == p.turn.Opponent()
    case OwnPieceOnDestination(s) => mv.BoardMove? && s == mv.to && OwnOn(p, mv.from) && OwnOn(p, s)
    case NoSuchMove(f, t) => Attempted(p, mv) && f == mv.from && t == mv.to && !HasItsShape(p, mv)
    case PathBlocked(f, t) =>
      && Attempted(p, mv) && f == mv.from && t == mv.to && HasItsShape(p, mv)
      && p.board[f].kind != Knight && !WayClear(p.board, f, t)
    case PromotionNotPermitted(f, t) =>
      && Arriveable(p, mv) && f == mv.from && t == mv.to && mv.promote
      && (p.board[f].kind.Promoted().None? || (!LastThreeRanks(p.turn, f) && !LastThreeRanks(p.turn, t)))
    case PromotionRequired(f, t) =>
      && Arriveable(p, mv) && f == mv.from && t == mv.to && !mv.promote
      && !CanGoOn(p.board[f].kind, p.turn, t)
    case NotInHand(kind) => mv.Drop? && kind == mv.piece && CountOf(p.HandOf(p.turn), kind) == 0
    case OccupiedSquare(t) => Held(p, mv) && t == mv.to && t in p.board
    case DeadDrop(kind, t) =>
      && Held(p, mv) && kind == mv.piece && t == mv.to && t !in p.board
      && !CanGoOn(kind.ToPieceKind(), p.turn, t)
    case Nifu(file) =>
      && Held(p, mv) && mv.piece == HPawn && file == mv.to.file && mv.to !in p.board
      && CanGoOn(Pawn, p.turn, mv.to)
      && exists s: Square :: s in p.board && s.file == file && p.board[s] == Piece(Pawn, p.turn)
    case KingLeftInCheck =>
      && Placeable(p, mv)
      && exists b: Placement :: BoardAfter(p, mv, b) && KingAttacked(b, p.turn)
    case DropPawnMate(t) => t == mv.to && LawfulButForMate(p, mv) && MatesWithAPawnDrop(p, mv)
  }

  // ------------------------------------------------------- before any king

  lemma BoardRefusals(p: Position, mv: Move, e: Illegal)
    requires mv.BoardMove? && !e.KingLeftInCheck? && !e.DropPawnMate?
    ensures Made(p, mv) == Failure(e) <==> Refuses(p, mv, e)
  {
    var from, to := mv.from, mv.to;
    ZoneIsLastThreeRanks(p.turn, from);
    ZoneIsLastThreeRanks(p.turn, to);
    if from in p.board {
      ReachIsByShape(p.board, from, p.board[from], to);
      GoingOnIsNotForced(p.board[from].kind, p.turn, to);
    }
    hide ReachOf, Shape, WayClear, Side, Ahead, InPromotionZone, LastThreeRanks, MustPromote, CanGoOn, AfterBoardMove;
  }

  lemma DropRefusals(p: Position, mv: Move, e: Illegal)
    requires mv.Drop? && !e.KingLeftInCheck? && !e.DropPawnMate?
    ensures Made(p, mv) == Failure(e) <==> Refuses(p, mv, e)
  {
    PawnsOnFile(p.board, p.turn, mv.to.file);
    GoingOnIsNotForced(mv.piece.ToPieceKind(), p.turn, mv.to);
    assert mv.piece == HPawn ==> mv.piece.ToPieceKind() == Pawn;
    hide HasPawnOnFile, MustPromote, CanGoOn, AfterDrop;
  }

  lemma MakingRefusals(p: Position, mv: Move, e: Illegal)
    requires !e.KingLeftInCheck? && !e.DropPawnMate?
    ensures Made(p, mv) == Failure(e) <==> Refuses(p, mv, e)
  {
    if mv.BoardMove? {
      BoardRefusals(p, mv, e);
    } else {
      DropRefusals(p, mv, e);
    }
  }

  // ----------------------------------------------------------- every refusal

  /** `apply_move` refuses a move for a reason if and only if the law does, and
      the reason names the squares, kind or file the law names: in every
      position, for every move and every reason. */
  lemma RefusedExactly(p: Position, mv: Move, e: Illegal)
    ensures ApplyMove(p, mv) == Failure(e) <==> Refuses(p, mv, e)
  {
    hide Made, HasLegalMove, BoardInCheck, Refuses, MatesByPawnDrop;
    MakingNamesNeither(p, mv);
    if e.KingLeftInCheck? {
      LeavingTheKing(p, mv);
    } else if e.DropPawnMate? {
      Mating(p, mv, e.to);
    } else {
      MakingRefusals(p, mv, e);
    }
  }

  lemma MakingNamesNeither(p: Position, mv: Move)
    ensures Made(p, mv).Failure? ==> !Made(p, mv).error.KingLeftInCheck? && !Made(p, mv).error.DropPawnMate?
  {
  }

  lemma LeavingTheKing(p: Position, mv: Move)
    ensures ValidateSuspended(p, mv) == Failure(KingLeftInCheck) <==> Refuses(p, mv, KingLeftInCheck)
  {
    hide BoardAfter, Placeable, KingAttacked, BoardInCheck, Made;
    MakingNamesNeither(p, mv);
    MadeIsPlaceable(p, mv);
    if Made(p, mv).Success? {
      var next := Made(p, mv).value.board;
      MadeBoardIsLawful(p, mv);
      CheckIsAttack(next, p.turn);
      if Refuses(p, mv, KingLeftInCheck) {
        var b: Placement :| BoardAfter(p, mv, b) && KingAttacked(b, p.turn);
        OneBoardAfter(p, mv, b, next);
      }
    }
  }

  lemma Mating(p: Position, mv: Move, t: Square)
    ensures ApplyMove(p, mv) == Failure(DropPawnMate(t)) <==> Refuses(p, mv, DropPawnMate(t))
  {
    hide LawfulButForMate, MatesWithAPawnDrop, HasLegalMove, Made, BoardInCheck;
    AcceptedMovesAreTheLawfulOnes(p, mv);
    SuspendedIsLawful(p, mv);
    MakingNamesNeither(p, mv);
  }
}
