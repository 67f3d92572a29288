/** The rules of a move stated without the tables, rays, zones or searches of
    `src/game/legality.rs`, and that `apply_move` accepts exactly the lawful
    moves and does to the position exactly what the rules say. */
module LawOfMoves {
  import opened Wrappers
  import opened Position
  import opened Movement
  import opened MovementShapes
  import opened Legality
  import opened Notation
  import Symmetry

  // ------------------------------------------------------------------ the law

  /** The piece on `from` moves to `to`, by its shape and past nothing. */
  predicate Bears(b: Placement, from: Square, to: Square) {
    && from in b
    && Shape(b[from].kind, Side(from, to), Ahead(from, to, b[from].color))
    && (b[from].kind == Knight || WayClear(b, from, to))
  }

  /** The king of this colour; of several, the first by file and then by rank. */
  ghost predicate TheKing(b: Placement, king: Square, color: Color) {
    && IsKing(b, king, color)
    && forall other: Square :: IsKing(b, other, color) ==>
         king.file < other.file || (king.file == other.file && king.rank <= other.rank)
  }

  /** Some enemy piece bears on the king of this colour. */
  ghost predicate KingAttacked(b: Placement, color: Color) {
    exists king: Square, from: Square ::
      from in b && b[from].color == color.Opponent() && TheKing(b, king, color) && Bears(b, from, king)
  }

  /** The piece would have somewhere to go from `s` on an empty board. */
  ghost predicate CanGoOn(kind: PieceKind, color: Color, s: Square) {
    exists t: Square :: Shape(kind, Side(s, t), Ahead(s, t, color))
  }

  /** The last three ranks, counted from the mover's side. */
  predicate LastThreeRanks(color: Color, s: Square) {
    if color.Black? then s.rank <= 3 else s.rank >= 7
  }

  ghost predicate LawfulBoardMove(p: Position, from: Square, to: Square, promote: bool) {
    && from in p.board && p.board[from].color == p.turn
    && (to in p.board ==> p.board[to].color != p.turn)
    && Bears(p.board, from, to)
    && if promote
       then p.board[from].kind.Promoted().Some? && (LastThreeRanks(p.turn, from) || LastThreeRanks(p.turn, to))
       else CanGoOn(p.board[from].kind, p.turn, to)
  }

  ghost predicate LawfulDrop(p: Position, kind: HandKind, to: Square) {
    && CountOf(p.HandOf(p.turn), kind) > 0
    && to !in p.board
    && CanGoOn(kind.ToPieceKind(), p.turn, to)
    && (kind == HPawn ==> forall s: Square :: s in p.board && s.file == to.file ==> p.board[s] != Piece(Pawn, p.turn))
  }

  /** What the move puts on its destination. */
  function Arrives(p: Position, mv: Move): (piece: Piece)
    requires mv.BoardMove? ==> mv.from in p.board && (mv.promote ==> p.board[mv.from].kind.Promoted().Some?)
  {
    match mv
    case BoardMove(from, _, promote) =>
      Piece(if promote then p.board[from].kind.Promoted().value else p.board[from].kind, p.turn)
    case Drop(kind, _) => Piece(kind.ToPieceKind(), p.turn)
  }

  /** The board after the move: its origin empty, the piece on its destination,
      every other square as it was. */
  ghost predicate BoardAfter(p: Position, mv: Move, b: Placement) {
    && (mv.BoardMove? ==> mv.from in p.board && (mv.promote ==> p.board[mv.from].kind.Promoted().Some?))
    && mv.to in b && b[mv.to] == Arrives(p, mv)
    && (mv.BoardMove? && mv.from != mv.to ==> mv.from !in b)
    && forall s: Square :: s != mv.to && (mv.Drop? || s != mv.from) ==>
         (s in b <==> s in p.board) && (s in b ==> b[s] == p.board[s])
  }

  ghost predicate Placeable(p: Position, mv: Move) {
    match mv
    case BoardMove(from, to, promote) => LawfulBoardMove(p, from, to, promote)
    case Drop(kind, to) => LawfulDrop(p, kind, to)
  }

  /** Lawful but for the rule against mating by a dropped pawn. */
  ghost predicate LawfulButForMate(p: Position, mv: Move) {
    && Placeable(p, mv)
    && exists b: Placement :: BoardAfter(p, mv, b) && !KingAttacked(b, p.turn)
  }

  // -------------------------------------------------------- piece by piece

  lemma BearingIsReaching(b: Placement, from: Square, to: Square)
    ensures Bears(b, from, to) <==> from in b && ReachOf(b, from, b[from], to) == Reaches
  {
    if from in b {
      ReachIsByShape(b, from, b[from], to);
    }
  }

  lemma ZoneIsLastThreeRanks(color: Color, s: Square)
    ensures InPromotionZone(color, s) <==> LastThreeRanks(color, s)
  {
  }

  /** The forced-promotion table is the law's `CanGoOn`. */
  lemma GoingOnIsNotForced(kind: PieceKind, color: Color, s: Square)
    ensures CanGoOn(kind, color, s) <==> !MustPromote(kind, color, s)
  {
    hide Shape, MustPromote, StepsTo;
    var piece := Piece(kind, color);
    ForcedPromotionIsADeadSquare(kind, color, s);
    if CanGoOn(kind, color, s) {
      var t: Square :| Shape(kind, Side(s, t), Ahead(s, t, color));
      ReachIsByShape(map[], s, piece, t);
      ReachingNeedsAStep(s, piece, t);
    }
    if CanEverMove(s, piece) {
      var t := FirstSquare(s, piece);
      ReachIsByShape(map[], s, piece, t);
    }
  }

  lemma ReachingNeedsAStep(s: Square, piece: Piece, t: Square)
    requires ReachOf(map[], s, piece, t) != Unreachable
    ensures CanEverMove(s, piece)
  {
  }

  lemma FirstSquare(s: Square, piece: Piece) returns (t: Square)
    requires CanEverMove(s, piece)
    ensures ReachOf(map[], s, piece, t) == Reaches
  {
    if d :| d in Steps(piece.kind) && Step(s, d, piece.color).Some? {
      t := Step(s, d, piece.color).value;
    } else {
      var e :| e in Slides(piece.kind) && Step(s, e, piece.color).Some?;
      t := Step(s, e, piece.color).value;
      assert RayReach(map[], s, e, piece.color, t) == Reaches;
    }
  }

  /** Where there is one king a side, the king is any king. */
  lemma OneKingIsTheKing(b: Placement, king: Square, color: Color)
    requires Symmetry.AtMostOneKing(b, color)
    ensures TheKing(b, king, color) <==> IsKing(b, king, color)
  {
  }

  /** The king the search finds is the first. */
  lemma TheKingIsFound(b: Placement, king: Square, color: Color)
    ensures TheKing(b, king, color) <==> KingSquare(b, color) == Some(king)
  {
    hide IsKing, SquareAt;
    KingSquareFinds(b, color);
    FirstKingIsFirst(b, color, 0);
    forall s: Square ensures SquareAt(IndexOf(s)) == s && IndexOf(s) < 81 {
    }
    if KingSquare(b, color) == Some(king) {
      forall other: Square | IsKing(b, other, color)
        ensures king.file < other.file || (king.file == other.file && king.rank <= other.rank)
      {
        assert IndexOf(king) <= IndexOf(other);
      }
    }
    if TheKing(b, king, color) {
      var found := KingSquare(b, color).value;
      assert IndexOf(found) <= IndexOf(king);
    }
  }

  /** Being in check is having the king attacked, on every board. */
  lemma CheckIsAttack(b: Placement, color: Color)
    ensures BoardInCheck(b, color) <==> KingAttacked(b, color)
  {
    hide ReachOf, Bears, TheKing;
    if BoardInCheck(b, color) {
      var king := KingSquare(b, color).value;
      TheKingIsFound(b, king, color);
      var from: Square :| from in b && Attacks(b, from, color.Opponent(), king);
      BearingIsReaching(b, from, king);
      assert TheKing(b, king, color) && Bears(b, from, king);
    }
    if KingAttacked(b, color) {
      var king: Square, from: Square :|
        from in b && b[from].color == color.Opponent() && TheKing(b, king, color) && Bears(b, from, king);
      TheKingIsFound(b, king, color);
      BearingIsReaching(b, from, king);
      assert Attacks(b, from, color.Opponent(), king);
    }
  }

  // -------------------------------------------------------------- the moves

  lemma BoardMovesAreLawful(p: Position, from: Square, to: Square, promote: bool)
    ensures ApplyBoardMove(p, p.turn, from, to, promote).Success? <==> LawfulBoardMove(p, from, to, promote)
  {
    hide ReachOf, Bears, InPromotionZone, LastThreeRanks, MustPromote, CanGoOn, AfterBoardMove;
    BearingIsReaching(p.board, from, to);
    ZoneIsLastThreeRanks(p.turn, from);
    ZoneIsLastThreeRanks(p.turn, to);
    if from in p.board {
      GoingOnIsNotForced(p.board[from].kind, p.turn, to);
    }
  }

  lemma PawnsOnFile(b: Placement, color: Color, file: int)
    requires 1 <= file <= 9
    ensures HasPawnOnFile(b, color, file)
       <==> exists s: Square :: s in b && s.file == file && b[s] == Piece(Pawn, color)
  {
  }

  lemma DropsAreLawful(p: Position, kind: HandKind, to: Square)
    ensures ApplyDrop(p, p.turn, kind, to).Success? <==> LawfulDrop(p, kind, to)
  {
    hide HasPawnOnFile, MustPromote, CanGoOn, AfterDrop;
    PawnsOnFile(p.board, p.turn, to.file);
    GoingOnIsNotForced(kind.ToPieceKind(), p.turn, to);
  }

  lemma MovedBoardIsLawful(p: Position, from: Square, to: Square, promote: bool)
    requires ApplyBoardMove(p, p.turn, from, to, promote).Success?
    ensures BoardAfter(p, BoardMove(from, to, promote), ApplyBoardMove(p, p.turn, from, to, promote).value.board)
  {
  }

  lemma DroppedBoardIsLawful(p: Position, kind: HandKind, to: Square)
    requires ApplyDrop(p, p.turn, kind, to).Success?
    ensures BoardAfter(p, Drop(kind, to), ApplyDrop(p, p.turn, kind, to).value.board)
  {
  }

  /** The board a made move leaves is the one the law describes. */
  lemma MadeBoardIsLawful(p: Position, mv: Move)
    requires Made(p, mv).Success?
    ensures Placeable(p, mv)
    ensures BoardAfter(p, mv, Made(p, mv).value.board)
  {
    hide ApplyBoardMove, ApplyDrop, BoardAfter, Placeable;
    MadeIsPlaceable(p, mv);
    match mv
    case BoardMove(from, to, promote) => MovedBoardIsLawful(p, from, to, promote);
    case Drop(kind, to) => DroppedBoardIsLawful(p, kind, to);
  }

  /** The law leaves no choice of board. */
  lemma OneBoardAfter(p: Position, mv: Move, b: Placement, c: Placement)
    requires Placeable(p, mv) && BoardAfter(p, mv, b) && BoardAfter(p, mv, c)
    ensures b == c
  {
  }

  /** With the rule against mating drops set aside, the moves accepted are the
      lawful ones. */
  lemma SuspendedIsLawful(p: Position, mv: Move)
    ensures ValidateSuspended(p, mv).Success? <==> LawfulButForMate(p, mv)
  {
    hide BoardAfter, Placeable, KingAttacked, BoardInCheck, Made;
    MadeIsPlaceable(p, mv);
    if Made(p, mv).Success? {
      var next := Made(p, mv).value.board;
      MadeBoardIsLawful(p, mv);
      CheckIsAttack(next, p.turn);
      if LawfulButForMate(p, mv) {
        var b: Placement :| BoardAfter(p, mv, b) && !KingAttacked(b, p.turn);
        OneBoardAfter(p, mv, b, next);
      }
    }
  }

  lemma MadeIsPlaceable(p: Position, mv: Move)
    ensures Made(p, mv).Success? <==> Placeable(p, mv)
  {
    hide ApplyBoardMove, ApplyDrop, LawfulBoardMove, LawfulDrop;
    match mv
    case BoardMove(from, to, promote) => BoardMovesAreLawful(p, from, to, promote);
    case Drop(kind, to) => DropsAreLawful(p, kind, to);
  }

  /** The move is a pawn drop that checks, with no lawful answer. */
  ghost predicate MatesWithAPawnDrop(p: Position, mv: Move) {
    && mv.Drop? && mv.piece == HPawn && CountOf(p.HandOf(p.turn), HPawn) != 0
    && var next := AfterDrop(p, p.turn, HPawn, mv.to);
       KingAttacked(next.board, next.turn) && forall reply: Move :: !LawfulButForMate(next, reply)
  }

  lemma MateIsMate(mv: Move, next: Position)
    ensures MatesByPawnDrop(mv, next)
       <==> && mv.Drop? && mv.piece == HPawn && KingAttacked(next.board, next.turn)
            && forall reply: Move :: !LawfulButForMate(next, reply)
  {
    hide LawfulButForMate, ValidateSuspended, KingAttacked, BoardInCheck;
    CheckIsAttack(next.board, next.turn);
    forall reply: Move ensures ValidateSuspended(next, reply).Success? <==> LawfulButForMate(next, reply) {
      SuspendedIsLawful(next, reply);
    }
  }

  lemma DroppedPosition(p: Position, mv: Move)
    requires mv.Drop? && ValidateSuspended(p, mv).Success?
    ensures CountOf(p.HandOf(p.turn), mv.piece) != 0
    ensures ValidateSuspended(p, mv).value == AfterDrop(p, p.turn, mv.piece, mv.to)
  {
  }

  /** `apply_move` accepts exactly the lawful moves, in every position. */
  lemma AcceptedMovesAreTheLawfulOnes(p: Position, mv: Move)
    ensures ApplyMove(p, mv).Success? <==> LawfulButForMate(p, mv) && !MatesWithAPawnDrop(p, mv)
  {
    hide LawfulButForMate, ValidateSuspended, KingAttacked, MatesByPawnDrop, AfterDrop;
    SuspendedIsLawful(p, mv);
    if ValidateSuspended(p, mv).Success? {
      MateIsMate(mv, ValidateSuspended(p, mv).value);
      if mv.Drop? {
        DroppedPosition(p, mv);
      }
    }
  }

  // ------------------------------------------------ what an accepted move does

  /** An accepted move leaves on its destination the very kind its notation
      writes, empties its origin and nothing else, and passes the turn. */
  lemma TheWrittenKindStands(p: Position, mv: Move, w: WrittenMove)
    requires ApplyMove(p, mv).Success? && Of(p.turn, mv, p) == Success(w)
    ensures var next := ApplyMove(p, mv).value;
            && next.turn == p.turn.Opponent()
            && next.PieceAt(w.to) == Some(Piece(w.kind, p.turn))
            && (w.from.Some? ==> next.PieceAt(w.from.value) == None)
            && forall s: Square :: s != w.to && Some(s) != w.from ==> next.PieceAt(s) == p.PieceAt(s)
  {
  }

  lemma AcceptedMovesAreMade(p: Position, mv: Move)
    requires ApplyMove(p, mv).Success?
    ensures Made(p, mv) == ApplyMove(p, mv)
  {
    hide Made, HasLegalMove, InCheck;
  }

  /** Of each kind, the mover's hand gains the captured piece, up to the 255 a
      counter holds, loses the dropped one, and the other hand is untouched. */
  lemma TheHandsAfter(p: Position, mv: Move, kind: HandKind)
    requires ApplyMove(p, mv).Success?
    ensures var next := ApplyMove(p, mv).value;
            var before := CountOf(p.HandOf(p.turn), kind);
            var captured := p.PieceAt(mv.to).Some? && HeldAs(p.PieceAt(mv.to).value.kind) == Some(kind);
            && next.HandOf(p.turn.Opponent()) == p.HandOf(p.turn.Opponent())
            && CountOf(next.HandOf(p.turn), kind)
               == (if captured && before < 255 then before + 1 else before)
                  - (if mv.Drop? && mv.piece == kind then 1 else 0)
  {
    AcceptedMovesAreMade(p, mv);
    hide ApplyMove, ReachOf, Arriving, IsDeadDrop, HasPawnOnFile, Placed, Added, Removed, CountOf, HeldAs;
    match mv
    case BoardMove(from, to, promote) =>
      if p.PieceAt(to).Some? && HeldAs(p.PieceAt(to).value.kind).Some? {
        CapturesCount(p.HandOf(p.turn), HeldAs(p.PieceAt(to).value.kind).value, kind);
      }
    case Drop(held, to) =>
      DropTakes(p, held, to);
      CapturesCount(p.HandOf(p.turn), held, kind);
  }

  lemma CapturesCount(hand: Hand, held: HandKind, kind: HandKind)
    ensures CountOf(Added(hand, held), kind)
         == if held == kind && CountOf(hand, kind) < 255 then CountOf(hand, kind) + 1 else CountOf(hand, kind)
    ensures Removed(hand, held).Some? ==>
      CountOf(Removed(hand, held).value, kind) == CountOf(hand, kind) - if held == kind then 1 else 0
  {
    CountersMoveByOne(hand, held, kind);
  }

  lemma DropTakes(p: Position, held: HandKind, to: Square)
    requires ApplyDrop(p, p.turn, held, to).Success?
    ensures Removed(p.HandOf(p.turn), held).Some? && to !in p.board
  {
  }

  // ------------------------------------------- where the symmetry ends

  /** Two black kings, only the second of them attacked. */
  const TWO_KINGS: Placement :=
    map[Coordinate(1, 9) := Piece(King, Black), Coordinate(9, 9) := Piece(King, Black),
        Coordinate(9, 1) := Piece(Rook, White)]

  /** The first king one square on. */
  const STEPPED: Placement :=
    map[Coordinate(1, 8) := Piece(King, Black), Coordinate(9, 9) := Piece(King, Black),
        Coordinate(9, 1) := Piece(Rook, White)]

  lemma TheFirstKingSteps(p: Position)
    requires p == Position(TWO_KINGS, EMPTY_HAND, EMPTY_HAND, Black)
    ensures var made := ApplyBoardMove(p, Black, Coordinate(1, 9), Coordinate(1, 8), false);
            made.Success? && made.value.turn == White && made.value.board == STEPPED
  {
    StepsHaveTheShape(Coordinate(1, 9), Piece(King, Black), Coordinate(1, 8));
    hide StepsTo;
  }

  lemma TheFirstKingIsSafe()
    ensures KingSquare(STEPPED, Black) == Some(Coordinate(1, 8))
    ensures !BoardInCheck(STEPPED, Black)
  {
    assert TheKing(STEPPED, Coordinate(1, 8), Black);
    BearingIsReaching(STEPPED, Coordinate(9, 1), Coordinate(1, 8));
    hide ReachOf, TheKing, KingSquare;
    TheKingIsFound(STEPPED, Coordinate(1, 8), Black);
  }

  lemma TheLastKingIsNot()
    ensures Symmetry.LastKingAttacked(STEPPED, Black)
  {
    assert SquareAt(80) == Coordinate(9, 9);
    assert Symmetry.LastKingSquare(STEPPED, Black) == Some(Coordinate(9, 9));
    forall k: nat | 1 <= k < 8
      ensures OnTheWay(Coordinate(9, 1), Coordinate(9, 9), k) == Coordinate(9, 1 + k)
    {
    }
    BearingIsReaching(STEPPED, Coordinate(9, 1), Coordinate(9, 9));
    hide ReachOf, OnTheWay, Symmetry.LastKingSquare;
    assert Attacks(STEPPED, Coordinate(9, 1), White, Coordinate(9, 9));
  }

  lemma TheStepIsMade(p: Position, mv: Move)
    requires p == Position(TWO_KINGS, EMPTY_HAND, EMPTY_HAND, Black)
    requires mv == BoardMove(Coordinate(1, 9), Coordinate(1, 8), false)
    ensures Made(p, mv).Success? && Made(p, mv).value.board == STEPPED
  {
    TheFirstKingSteps(p);
    hide TWO_KINGS, STEPPED, ApplyBoardMove;
  }

  /** The boundary met: two kings of a colour, of which the first is safe and the
      last is not, so the move stands and its mirror image is refused. */
  lemma TwoKingsBreakTheSymmetry() returns (p: Position, mv: Move)
    ensures !Symmetry.TurnsAlike(p, mv)
    ensures ApplyMove(p, mv).Success?
    ensures ApplyMove(Symmetry.TurnedPosition(p), Symmetry.TurnedMove(mv)) == Failure(KingLeftInCheck)
  {
    p := Position(TWO_KINGS, EMPTY_HAND, EMPTY_HAND, Black);
    mv := BoardMove(Coordinate(1, 9), Coordinate(1, 8), false);
    TheStepIsMade(p, mv);
    TheFirstKingIsSafe();
    TheLastKingIsNot();
    hide TWO_KINGS, STEPPED, Made, BoardInCheck, Symmetry.LastKingAttacked, HasLegalMove,
      Symmetry.TurnedPosition, Symmetry.TurnedMove, Symmetry.MatesLastKing;
    Symmetry.ApplyMoveOnTheTurnedBoard(p, mv);
  }
}
