/** `src/game/legality.rs` in its own form: a cloned position edited in place,
    and the brute-force search as nested loops with early return. */
module LegalityInPlace {
  import opened Wrappers
  import opened Position
  import opened Movement
  import opened Legality
  import opened PositionStore

  method ApplyBoardMoveTo(p: Position, mover: Color, from: Square, to: Square, promote: bool)
    returns (r: Outcome)
    ensures r == ApplyBoardMove(p, mover, from, to, promote)
  {
    var piece := p.PieceAt(from);
    if piece.None? {
      return Failure(EmptySquare(from));
    }
    if piece.value.color != mover {
      return Failure(NotOwnPiece(from));
    }
    var occupant := p.PieceAt(to);
    if occupant.Some? && occupant.value.color == mover {
      return Failure(OwnPieceOnDestination(to));
    }
    var reached := ReachLoop(p.board, from, piece.value, to);
    match reached {
      case Reaches =>
      case Blocked => return Failure(PathBlocked(from, to));
      case Unreachable => return Failure(NoSuchMove(from, to));
    }
    var arriving := Arriving(piece.value, from, to, promote);
    if arriving.Failure? {
      return Failure(arriving.error);
    }
    var next := new Store.Clone(p);
    next.SetPieceAt(from, None);
    if occupant.Some? {
      var held := HeldAs(occupant.value.kind);
      if held.Some? {
        next.AddToHand(mover, held.value);
      }
    }
    next.SetPieceAt(to, Some(Piece(arriving.value, mover)));
    next.SetSideToMove(mover.Opponent());
    var result := next.Read();
    return Success(result);
  }

  method ApplyDropTo(p: Position, mover: Color, kind: HandKind, to: Square) returns (r: Outcome)
    ensures r == ApplyDrop(p, mover, kind, to)
  {
    if CountOf(p.HandOf(mover), kind) == 0 {
      return Failure(NotInHand(kind));
    }
    if p.PieceAt(to).Some? {
      return Failure(OccupiedSquare(to));
    }
    if IsDeadDrop(kind, mover, to) {
      return Failure(DeadDrop(kind, to));
    }
    if kind == HPawn && HasPawnOnFile(p.board, mover, to.file) {
      return Failure(Nifu(to.file));
    }
    var next := new Store.Clone(p);
    var removed := next.RemoveFromHand(mover, kind);
    if !removed {
      return Failure(NotInHand(kind));
    }
    next.SetPieceAt(to, Some(Piece(kind.ToPieceKind(), mover)));
    next.SetSideToMove(mover.Opponent());
    var result := next.Read();
    return Success(result);
  }

  method ValidateMove(p: Position, mv: Move, rule: Rule) returns (r: Outcome)
    ensures r == Validate(p, mv, rule)
    decreases if rule.Enforced? then 2 else 0
  {
    match mv {
      case BoardMove(from, to, promote) => r := ApplyBoardMoveTo(p, p.turn, from, to, promote);
      case Drop(kind, to) => r := ApplyDropTo(p, p.turn, kind, to);
    }
    if r.Failure? {
      return;
    }
    var next := r.value;
    if InCheck(next, p.turn) {
      return Failure(KingLeftInCheck);
    }
    if rule.Enforced? && mv.Drop? && mv.piece == HPawn && InCheck(next, p.turn.Opponent()) {
      var answered := FindLegalMove(next);
      if !answered {
        return Failure(DropPawnMate(mv.to));
      }
    }
  }

  /** Nothing the search skips could have been accepted: a move is accepted only
      from the mover's own piece or of a kind in the mover's hand. */
  lemma AcceptedMovesAreSearched(p: Position, mv: Move)
    requires ValidateSuspended(p, mv).Success?
    ensures match mv
            case BoardMove(from, _, _) => from in p.board && p.board[from].color == p.turn
            case Drop(kind, _) => CountOf(p.HandOf(p.turn), kind) != 0
  {
  }

  /** No accepted move among the first `to` destinations of one origin. */
  ghost predicate NoneFrom(p: Position, from: Square, to: nat) {
    forall i, promote :: 0 <= i < to && i < 81 ==> ValidateSuspended(p, BoardMove(from, SquareAt(i), promote)).Failure?
  }

  ghost predicate NoneOf(p: Position, kind: HandKind, to: nat) {
    forall i :: 0 <= i < to && i < 81 ==> ValidateSuspended(p, Drop(kind, SquareAt(i))).Failure?
  }

  /** `has_legal_move`: true exactly when some move value is accepted. */
  method FindLegalMove(p: Position) returns (found: bool)
    ensures found <==> HasLegalMove(p)
    decreases 1
  {
    hide ValidateSuspended, MatesByPawnDrop, HasLegalMove, SquareAt, IndexOf;
    forall mv: Move | ValidateSuspended(p, mv).Success?
      ensures match mv
              case BoardMove(from, _, _) => from in p.board && p.board[from].color == p.turn
              case Drop(kind, _) => CountOf(p.HandOf(p.turn), kind) != 0
    {
      AcceptedMovesAreSearched(p, mv);
    }
    for i := 0 to 81
      invariant forall j :: 0 <= j < i ==> NoneFrom(p, SquareAt(j), 81)
    {
      var from := SquareAt(i);
      if from in p.board && p.board[from].color == p.turn {
        for k := 0 to 81
          invariant NoneFrom(p, from, k)
        {
          var stay := ValidateMove(p, BoardMove(from, SquareAt(k), false), Suspended);
          if stay.Success? {
            Found(p, BoardMove(from, SquareAt(k), false));
            return true;
          }
          var promoting := ValidateMove(p, BoardMove(from, SquareAt(k), true), Suspended);
          if promoting.Success? {
            Found(p, BoardMove(from, SquareAt(k), true));
            return true;
          }
        }
      }
    }
    for h := 0 to 7
      invariant forall g :: 0 <= g < h ==> NoneOf(p, HAND_KINDS[g], 81)
    {
      var kind := HAND_KINDS[h];
      if CountOf(p.HandOf(p.turn), kind) != 0 {
        for k := 0 to 81
          invariant NoneOf(p, kind, k)
        {
          var dropped := ValidateMove(p, Drop(kind, SquareAt(k)), Suspended);
          if dropped.Success? {
            Found(p, Drop(kind, SquareAt(k)));
            return true;
          }
        }
      }
    }
    NothingFound(p);
    return false;
  }

  /** What the exhausted search has established. */
  lemma NothingFound(p: Position)
    requires forall i :: 0 <= i < 81 ==> NoneFrom(p, SquareAt(i), 81)
    requires forall h :: 0 <= h < 7 ==> NoneOf(p, HAND_KINDS[h], 81)
    ensures !HasLegalMove(p)
  {
    hide ValidateSuspended, SquareAt, IndexOf;
    forall mv: Move ensures ValidateSuspended(p, mv).Failure? {
      match mv
      case BoardMove(from, to, promote) =>
        assert NoneFrom(p, SquareAt(IndexOf(from)), 81);
        assert ValidateSuspended(p, BoardMove(from, SquareAt(IndexOf(to)), promote)).Failure?;
      case Drop(kind, to) =>
        assert NoneOf(p, HAND_KINDS[kind.Index()], 81);
        assert ValidateSuspended(p, Drop(kind, SquareAt(IndexOf(to)))).Failure?;
    }
  }

  lemma Found(p: Position, mv: Move)
    requires ValidateSuspended(p, mv).Success?
    ensures HasLegalMove(p)
  {
  }
}
