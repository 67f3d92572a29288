/** What every run of accepted moves keeps, from hirate or from any position
    that already has it. */
module Runs {
  import opened Wrappers
  import opened Position
  import opened Movement
  import opened Legality
  import opened StartSpec
  import DropPawnMate
  import LawOfMoves
  import Symmetry
  import opened Material

  ghost predicate OneKing(b: Placement, color: Color) {
    && Symmetry.AtMostOneKing(b, color)
    && exists s: Square :: IsKing(b, s, color)
  }

  /** No side has two unpromoted pawns on a file. */
  ghost predicate NoDoubledPawns(b: Placement) {
    forall s: Square, t: Square ::
      s in b && t in b && b[s].kind == Pawn && b[t] == b[s] && s.file == t.file ==> s == t
  }

  /** No piece stands where its whole movement pattern lies off the board. */
  ghost predicate NoDeadPieces(b: Placement) {
    forall s: Square :: s in b ==> CanEverMove(s, b[s])
  }

  /** The invariant of play. */
  ghost predicate Sound(p: Position) {
    && OneKing(p.board, Black) && OneKing(p.board, White)
    && !InCheck(p, p.turn.Opponent())
    && HoldsFullSet(p)
    && NoDoubledPawns(p.board)
    && NoDeadPieces(p.board)
  }

  // ----------------------------------------------------------- no king falls

  /** A move that captured a king would have had it in check already. */
  lemma NoKingIsCaptured(p: Position, from: Square, to: Square, promote: bool)
    requires OneKing(p.board, Black) && OneKing(p.board, White) && !InCheck(p, p.turn.Opponent())
    requires ApplyBoardMove(p, p.turn, from, to, promote).Success?
    ensures to in p.board ==> p.board[to].kind != King
  {
    if to in p.board && p.board[to].kind == King {
      var victim := p.turn.Opponent();
      assert IsKing(p.board, to, victim);
      KingSquareFinds(p.board, victim);
      assert Attacks(p.board, from, p.turn, to);
    }
  }

  lemma KingsStand(p: Position, mv: Move, color: Color)
    requires OneKing(p.board, Black) && OneKing(p.board, White) && !InCheck(p, p.turn.Opponent())
    requires Made(p, mv).Success?
    ensures OneKing(Made(p, mv).value.board, color)
  {
    Symmetry.MovesMakeNoKing(p, mv, color);
    var s: Square :| IsKing(p.board, s, color);
    var next := Made(p, mv).value.board;
    match mv
    case Drop(kind, to) => assert IsKing(next, s, color);
    case BoardMove(from, to, promote) =>
      NoKingIsCaptured(p, from, to, promote);
      assert IsKing(next, if s == from then to else s, color);
  }

  // ------------------------------------------------------ pawns, dead pieces

  /** A pawn never leaves its file. */
  lemma PawnsKeepTheirFile(b: Placement, from: Square, color: Color, to: Square)
    requires ReachOf(b, from, Piece(Pawn, color), to) == Reaches
    ensures from.file == to.file
  {
  }

  lemma DroppedPawnsStaySingle(p: Position, kind: HandKind, to: Square)
    requires NoDoubledPawns(p.board)
    requires ApplyDrop(p, p.turn, kind, to).Success?
    ensures NoDoubledPawns(AfterDrop(p, p.turn, kind, to).board)
  {
  }

  lemma MovedPawnsStaySingle(p: Position, from: Square, to: Square, promote: bool)
    requires NoDoubledPawns(p.board)
    requires ApplyBoardMove(p, p.turn, from, to, promote).Success?
    ensures NoDoubledPawns(ApplyBoardMove(p, p.turn, from, to, promote).value.board)
  {
    hide ReachOf, InPromotionZone, MustPromote, HandAfterCapture;
    var b := p.board;
    var next := ApplyBoardMove(p, p.turn, from, to, promote).value.board;
    forall s: Square, t: Square
      | s in next && t in next && next[s].kind == Pawn && next[t] == next[s] && s.file == t.file
      ensures s == t
    {
      assert s != from && t != from;
      if s == to || t == to {
        PawnsKeepTheirFile(b, from, p.turn, to);
      }
      assert b[if s == to then from else s] == next[s];
      assert b[if t == to then from else t] == next[t];
    }
  }

  lemma PawnsStaySingle(p: Position, mv: Move)
    requires NoDoubledPawns(p.board)
    requires Made(p, mv).Success?
    ensures NoDoubledPawns(Made(p, mv).value.board)
  {
    hide NoDoubledPawns, ApplyBoardMove, AfterDrop, DropRefusal;
    match mv
    case BoardMove(from, to, promote) => MovedPawnsStaySingle(p, from, to, promote);
    case Drop(kind, to) => DroppedPawnsStaySingle(p, kind, to);
  }

  lemma NothingIsStranded(p: Position, mv: Move)
    requires NoDeadPieces(p.board)
    requires Made(p, mv).Success?
    ensures NoDeadPieces(Made(p, mv).value.board)
  {
    hide ReachOf, InPromotionZone, CanEverMove;
    var next := Made(p, mv).value.board;
    forall s: Square | s in next ensures CanEverMove(s, next[s]) {
      if s == mv.to {
        ForcedPromotionIsADeadSquare(next[s].kind, p.turn, s);
      } else {
        assert next[s] == p.board[s];
      }
    }
  }

  // ------------------------------------------------------------- every step

  lemma MaterialStands(p: Position, mv: Move)
    requires HoldsFullSet(p)
    requires Made(p, mv).Success?
    ensures HoldsFullSet(Made(p, mv).value)
  {
    hide ApplyBoardMove, ApplyDrop, Holdings, ValueOn;
    forall kind ensures CountOf(p.HandOf(p.turn), kind) < 255 {
      HandsWithinTheSet(p, p.turn, kind);
    }
    forall w: Weights ensures Total(w, Made(p, mv).value) == Dot(w, FULL_SET) {
      assert Total(w, p) == Dot(w, FULL_SET);
      match mv
      case BoardMove(from, to, promote) => BoardMovesTransferTheCapture(w, p, from, to, promote);
      case Drop(kind, to) =>
        DropsTransferNothing(w, p, kind, to, Black);
        DropsTransferNothing(w, p, kind, to, White);
    }
  }

  lemma TurnPasses(p: Position, mv: Move)
    requires Made(p, mv).Success?
    ensures Made(p, mv).value.turn == p.turn.Opponent()
  {
  }

  /** Every accepted move keeps the invariant. */
  lemma AcceptedMovesKeepSoundness(p: Position, mv: Move)
    requires Sound(p) && ApplyMove(p, mv).Success?
    ensures Sound(ApplyMove(p, mv).value)
  {
    hide Made, HasLegalMove, OneKing, HoldsFullSet, NoDoubledPawns, NoDeadPieces, InCheck;
    KingsStand(p, mv, Black);
    KingsStand(p, mv, White);
    PawnsStaySingle(p, mv);
    NothingIsStranded(p, mv);
    MaterialStands(p, mv);
    TurnPasses(p, mv);
  }

  // ----------------------------------------------------------------- hirate

  lemma HirateKings(color: Color, s: Square)
    ensures IsKing(HiratePosition().board, s, color)
       <==> s == Coordinate(5, if color.Black? then 9 else 1)
  {
  }

  /** No black piece of hirate bears on the white king, blockers or none. */
  lemma HirateIsQuiet(from: Square)
    ensures !Attacks(HiratePosition().board, from, Black, Coordinate(5, 1))
  {
    var b := HiratePosition().board;
    assert HiratePosition().PieceAt(from) == HirateAt(from);
    if from in b && b[from].color == Black {
      assert from.rank >= 7;
      var piece := b[from];
      var king: Square := Coordinate(5, 1);
      assert !StepsTo(from, piece, king);
      if SlidesClear(b, from, piece, king) {
        var d: Direction, n: nat :| d in Slides(piece.kind) && OnRay(from, d, Black, king, n);
        Scaled(n, d.file);
        Scaled(n, d.rank);
      }
      ReachIsGeometry(b, from, piece, king);
    }
  }

  lemma HirateKingsAreSafe()
    ensures var p := HiratePosition();
            OneKing(p.board, Black) && OneKing(p.board, White) && !InCheck(p, White)
  {
    var b := HiratePosition().board;
    forall color, s: Square ensures IsKing(b, s, color) <==> s == Coordinate(5, if color.Black? then 9 else 1) {
      HirateKings(color, s);
    }
    assert IsKing(b, Coordinate(5, 9), Black) && IsKing(b, Coordinate(5, 1), White);
    hide IsKing, HiratePosition, Attacks;
    KingSquareFinds(b, White);
    forall from: Square ensures !Attacks(b, from, Black, Coordinate(5, 1)) {
      HirateIsQuiet(from);
    }
  }

  lemma HiratePieceCanMove(s: Square)
    requires HirateAt(s).Some?
    ensures CanEverMove(s, HirateAt(s).value)
  {
    var piece := HirateAt(s).value;
    hide CanEverMove;
    ForcedPromotionIsADeadSquare(piece.kind, piece.color, s);
  }

  lemma HiratePiecesCanMove()
    ensures NoDoubledPawns(HiratePosition().board) && NoDeadPieces(HiratePosition().board)
  {
    var p := HiratePosition();
    assert forall s: Square :: p.PieceAt(s) == HirateAt(s);
    forall s: Square | s in p.board && p.board[s].kind == Pawn
      ensures s.rank == if p.board[s].color.Black? then 7 else 3
    {
      assert Some(p.board[s]) == HirateAt(s);
    }
    hide HiratePosition, CanEverMove, HirateAt;
    forall s: Square | s in p.board ensures CanEverMove(s, p.board[s]) {
      assert Some(p.board[s]) == HirateAt(s);
      HiratePieceCanMove(s);
    }
  }

  lemma HirateIsSound()
    ensures Sound(HiratePosition())
  {
    hide OneKing, InCheck, NoDoubledPawns, NoDeadPieces, HoldsFullSet;
    HirateKingsAreSafe();
    HiratePiecesCanMove();
    HirateHoldsFullSet();
  }

  // ------------------------------------------------------------- whole runs

  /** Every position a replay passes through keeps the invariant. */
  lemma {:induction false} EveryRunStaysSound(start: Position, moves: seq<Move>)
    requires Sound(start) && Replay(start, moves).Success?
    ensures forall i :: 0 <= i <= |moves| ==> Sound(Replay(start, moves).value[i])
  {
    hide Sound, ApplyMove;
    if moves != [] {
      var n := |moves| - 1;
      EveryRunStaysSound(start, moves[..n]);
      AcceptedMovesKeepSoundness(Replay(start, moves[..n]).value[n], moves[n]);
    }
  }

  /** A position some run of accepted moves from hirate reaches. */
  ghost predicate Reachable(p: Position) {
    exists moves: seq<Move> :: Replay(HiratePosition(), moves).Success? && p in Replay(HiratePosition(), moves).value
  }

  lemma ReachableIsSound(p: Position)
    requires Reachable(p)
    ensures Sound(p)
  {
    var moves :| Replay(HiratePosition(), moves).Success? && p in Replay(HiratePosition(), moves).value;
    HirateIsSound();
    EveryRunStaysSound(HiratePosition(), moves);
  }

  /** Kings are never captured, along any run from hirate. */
  lemma NoRunCapturesAKing(p: Position, mv: Move)
    requires Reachable(p) && ApplyMove(p, mv).Success?
    ensures p.PieceAt(mv.to).Some? ==> p.PieceAt(mv.to).value.kind != King
  {
    ReachableIsSound(p);
    if mv.BoardMove? {
      NoKingIsCaptured(p, mv.from, mv.to, mv.promote);
    }
  }

  /** The saturating add never saturates: in every position a run from hirate
      reaches, counting a captured piece is adding exactly one. */
  lemma SaturationIsUnreachable(p: Position, color: Color, kind: HandKind)
    requires Reachable(p)
    ensures CountOf(p.HandOf(color), kind) <= FULL_SET[kind.Index()] <= 18
    ensures CountOf(Added(p.HandOf(color), kind), kind) == CountOf(p.HandOf(color), kind) + 1
    ensures |SquaresOf(p.board, kind, Black)| + |SquaresOf(p.board, kind, White)|
          + CountOf(p.black, kind) + CountOf(p.white, kind)
         == FULL_SET[kind.Index()]
  {
    ReachableIsSound(p);
    HandsWithinTheSet(p, color, kind);
    FullSetInPieces(p, kind);
  }

  /** In play, whatever answers a pawn drop that checks is judged alike with the
      rule suspended, in force, or in force at any depth: no such answer mates by
      a dropped pawn. */
  lemma SuspensionIsExactInPlay(p: Position, to: Square, reply: Move, depth: nat)
    requires Reachable(p) && ValidateSuspended(p, Drop(HPawn, to)).Success?
    requires InCheck(ValidateSuspended(p, Drop(HPawn, to)).value, p.turn.Opponent())
    ensures var next := ValidateSuspended(p, Drop(HPawn, to)).value;
            && ApplyMove(next, reply) == ValidateSuspended(next, reply)
            && DropPawnMate.ValidateDeep(next, reply, depth) == ValidateSuspended(next, reply)
  {
    ReachableIsSound(p);
    DropPawnMate.RepliesNeedNoRule(p, to, reply, depth);
  }

  /** In play, `apply_move` accepts exactly the lawful moves, and judges the
      board turned round the same way. */
  lemma PlayIsLawful(p: Position, mv: Move)
    requires Reachable(p)
    ensures ApplyMove(p, mv).Success?
       <==> LawOfMoves.LawfulButForMate(p, mv) && !LawOfMoves.MatesWithAPawnDrop(p, mv)
    ensures ApplyMove(Symmetry.TurnedPosition(p), Symmetry.TurnedMove(mv)) == Symmetry.TurnedOutcome(ApplyMove(p, mv))
  {
    hide ApplyMove, InCheck, Symmetry.TurnedPosition, Symmetry.AtMostOneKing;
    ReachableIsSound(p);
    LawOfMoves.AcceptedMovesAreTheLawfulOnes(p, mv);
    Symmetry.RulesAreColourBlind(p, mv);
  }
}
