/** Positions and games that the rules do reach, shown where a comment of the
    source is not what its code does. */
module PlayedExamples {
  import opened Wrappers
  import opened Position
  import opened Movement
  import opened MovementShapes
  import opened Legality
  import opened LawOfMoves
  import opened StartSpec
  import opened Repetition
  import opened Games

  // ------------------------------------- a quiet move, and perpetual check

  /** A black rook on the fifth rank, the white king on the first, the black king
      far off. */
  function RookAndKing(rook: int, king: int, turn: Color): (p: Position)
    requires 4 <= rook <= 6 && 4 <= king <= 5
  {
    Position(map[Coordinate(rook, 5) := Piece(Rook, Black), Coordinate(king, 1) := Piece(King, White),
                 Coordinate(9, 9) := Piece(King, Black)],
             EMPTY_HAND, EMPTY_HAND, turn)
  }

  lemma TheyNameThePosition(rook: int, king: int, turn: Color, rook': int, king': int, turn': Color)
    requires 4 <= rook <= 6 && 4 <= king <= 5 && 4 <= rook' <= 6 && 4 <= king' <= 5
    requires RookAndKing(rook, king, turn) == RookAndKing(rook', king', turn')
    ensures rook == rook' && king == king' && turn == turn'
  {
    var b, c := RookAndKing(rook, king, turn).board, RookAndKing(rook', king', turn').board;
    assert Coordinate(rook, 5) in c && Coordinate(king, 1) in c;
  }

  /** The rook checks along its file and nothing else checks. */
  lemma OnlyTheFileChecks(rook: int, king: int, turn: Color)
    requires 4 <= rook <= 6 && 4 <= king <= 5
    ensures InCheck(RookAndKing(rook, king, turn), White) <==> rook == king
    ensures !InCheck(RookAndKing(rook, king, turn), Black)
  {
    var b := RookAndKing(rook, king, turn).board;
    CheckIsAttack(b, White);
    CheckIsAttack(b, Black);
    hide BoardInCheck;
    if rook == king {
      assert TheKing(b, Coordinate(king, 1), White);
      assert Bears(b, Coordinate(rook, 5), Coordinate(king, 1));
    }
  }

  lemma TheRookReaches(rook: int, rook': int, king: int)
    requires 4 <= rook <= 6 && 4 <= rook' <= 6 && 4 <= king <= 5 && rook != rook'
    ensures ReachOf(RookAndKing(rook, king, Black).board, Coordinate(rook, 5), Piece(Rook, Black), Coordinate(rook', 5))
         == Reaches
  {
    ReachIsByShape(RookAndKing(rook, king, Black).board, Coordinate(rook, 5), Piece(Rook, Black), Coordinate(rook', 5));
    hide ReachOf;
  }

  lemma TheKingReaches(b: Placement, king: int, king': int)
    requires 4 <= king <= 5 && 4 <= king' <= 5 && king != king'
    ensures ReachOf(b, Coordinate(king, 1), Piece(King, White), Coordinate(king', 1)) == Reaches
  {
    ReachIsByShape(b, Coordinate(king, 1), Piece(King, White), Coordinate(king', 1));
    hide ReachOf;
  }

  /** A board move made, and its mover not in check after it, is accepted. */
  lemma MadeAndSafe(p: Position, from: Square, to: Square, next: Position)
    requires ApplyBoardMove(p, p.turn, from, to, false) == Success(next) && !InCheck(next, p.turn)
    ensures ApplyMove(p, BoardMove(from, to, false)) == Success(next)
  {
    hide ApplyBoardMove, BoardInCheck;
  }

  lemma TheRookMoves(rook: int, rook': int, king: int)
    requires 4 <= rook <= 6 && 4 <= rook' <= 6 && 4 <= king <= 5 && rook != rook'
    ensures AfterBoardMove(RookAndKing(rook, king, Black), Black, Coordinate(rook, 5), Coordinate(rook', 5), Rook)
         == RookAndKing(rook', king, White)
  {
  }

  lemma TheKingMoves(rook: int, king: int, king': int)
    requires 4 <= rook <= 6 && 4 <= king <= 5 && 4 <= king' <= 5 && king != king'
    ensures AfterBoardMove(RookAndKing(rook, king, White), White, Coordinate(king, 1), Coordinate(king', 1), King)
         == RookAndKing(rook, king', Black)
  {
  }

  lemma TheRookPlays(rook: int, rook': int, king: int)
    requires 4 <= rook <= 6 && 4 <= rook' <= 6 && 4 <= king <= 5 && rook != rook'
    ensures ApplyMove(RookAndKing(rook, king, Black), BoardMove(Coordinate(rook, 5), Coordinate(rook', 5), false))
         == Success(RookAndKing(rook', king, White))
  {
    var p, next := RookAndKing(rook, king, Black), RookAndKing(rook', king, White);
    hide ReachOf, BoardInCheck, ApplyMove;
    TheRookReaches(rook, rook', king);
    TheRookMoves(rook, rook', king);
    assert p.PieceAt(Coordinate(rook, 5)) == Some(Piece(Rook, Black)) && p.PieceAt(Coordinate(rook', 5)) == None;
    hide AfterBoardMove, RookAndKing;
    OnlyTheFileChecks(rook', king, White);
    MadeAndSafe(p, Coordinate(rook, 5), Coordinate(rook', 5), next);
  }

  lemma TheKingPlays(rook: int, king: int, king': int)
    requires 4 <= rook <= 6 && 4 <= king <= 5 && 4 <= king' <= 5 && king != king' && rook != king'
    ensures ApplyMove(RookAndKing(rook, king, White), BoardMove(Coordinate(king, 1), Coordinate(king', 1), false))
         == Success(RookAndKing(rook, king', Black))
  {
    var p, next := RookAndKing(rook, king, White), RookAndKing(rook, king', Black);
    hide ReachOf, BoardInCheck, ApplyMove;
    TheKingReaches(p.board, king, king');
    TheKingMoves(rook, king, king');
    assert p.PieceAt(Coordinate(king, 1)) == Some(Piece(King, White)) && p.PieceAt(Coordinate(king', 1)) == None;
    hide AfterBoardMove, RookAndKing;
    OnlyTheFileChecks(rook, king', Black);
    MadeAndSafe(p, Coordinate(king, 1), Coordinate(king', 1), next);
  }

  /** Where the rook stands before move `i`: it leaves the fourth file for the
      sixth the first time round, and for the fifth after that. */
  function RookFile(i: nat): (f: int)
    ensures 4 <= f <= 6
  {
    if i % 4 == 0 || i % 4 == 3 then 4 else if i < 4 then 6 else 5
  }

  function KingFile(i: nat): (f: int)
    ensures 4 <= f <= 5
  {
    if i % 4 <= 1 then 5 else 4
  }

  function TurnAt(i: nat): (c: Color) {
    if i % 2 == 0 then Black else White
  }

  function GameAt(i: nat): (p: Position) {
    RookAndKing(RookFile(i), KingFile(i), TurnAt(i))
  }

  function MoveAt(i: nat): (mv: Move) {
    if i % 2 == 0
    then BoardMove(Coordinate(RookFile(i), 5), Coordinate(RookFile(i + 1), 5), false)
    else BoardMove(Coordinate(KingFile(i), 1), Coordinate(KingFile(i + 1), 1), false)
  }

  const LOOP_MOVES: seq<Move> := seq(12, i requires 0 <= i < 12 => MoveAt(i))
  const LOOP_GAME: seq<Position> := seq(13, i requires 0 <= i < 13 => GameAt(i))

  lemma EachMoveIsAccepted(i: nat)
    requires i < 12
    ensures ApplyMove(GameAt(i), MoveAt(i)) == Success(GameAt(i + 1))
  {
    hide ApplyMove, RookAndKing;
    if i % 2 == 0 {
      TheRookPlays(RookFile(i), RookFile(i + 1), KingFile(i));
    } else {
      TheKingPlays(RookFile(i), KingFile(i), KingFile(i + 1));
    }
  }

  lemma TheLoopIsPlayed()
    ensures Replay(GameAt(0), LOOP_MOVES) == Success(LOOP_GAME)
  {
    hide ApplyMove, GameAt, MoveAt;
    forall i | 0 <= i < 12 ensures ApplyMove(LOOP_GAME[i], LOOP_MOVES[i]) == Success(LOOP_GAME[i + 1]) {
      EachMoveIsAccepted(i);
    }
    LinkedPositionsAreTheReplay(LOOP_MOVES, LOOP_GAME);
  }

  /** A position recurs only at the same point of the round. */
  lemma WhereItRecurs(i: nat, j: nat)
    requires i <= 12 && j <= 12
    ensures GameAt(i) == GameAt(j) ==> i % 4 == j % 4
    ensures i % 4 == j % 4 == 0 ==> GameAt(i) == GameAt(j)
  {
    hide RookAndKing;
    if GameAt(i) == GameAt(j) {
      TheyNameThePosition(RookFile(i), KingFile(i), TurnAt(i), RookFile(j), KingFile(j), TurnAt(j));
    }
  }

  lemma TheStartOccursFourTimes()
    ensures OccursFourTimes(LOOP_GAME, LOOP_GAME[12], 0, 4, 8, 12)
  {
    hide GameAt;
    forall i | 0 <= i < 13 ensures LOOP_GAME[i] == LOOP_GAME[12] <==> i == 0 || i == 4 || i == 8 || i == 12 {
      WhereItRecurs(i, 12);
    }
  }

  lemma WhoIsChecked(i: nat)
    requires i <= 12
    ensures LOOP_GAME[i].turn == TurnAt(i)
    ensures InCheck(LOOP_GAME[i], White) <==> RookFile(i) == KingFile(i)
  {
    hide InCheck;
    OnlyTheFileChecks(RookFile(i), KingFile(i), TurnAt(i));
  }

  lemma LaterMovesCheck(j: nat)
    requires 3 <= j <= 12 && LOOP_GAME[j - 1].turn == Black
    ensures InCheck(LOOP_GAME[j], LOOP_GAME[j].turn)
  {
    hide InCheck, LOOP_GAME;
    WhoIsChecked(j - 1);
    WhoIsChecked(j);
    assert j % 4 == 1 || j % 4 == 3;
  }

  lemma OnlyTheFirstMoveIsQuiet()
    ensures !InCheck(LOOP_GAME[1], White)
    ensures ChecksSince(LOOP_GAME, Black, 3)
  {
    assert |LOOP_GAME| == 13;
    hide LOOP_GAME, InCheck;
    WhoIsChecked(1);
    forall j | 1 <= j < |LOOP_GAME| && 3 <= j && LOOP_GAME[j - 1].turn == Black
      ensures InCheck(LOOP_GAME[j], LOOP_GAME[j].turn)
    {
      LaterMovesCheck(j);
    }
  }

  /** A round of four passes each position once. */
  lemma {:induction false} OnceARound(key: Position, i: nat)
    requires i == 0 || i == 4 || i == 8
    ensures var h := HistoryOf(LOOP_GAME); Occurrences(h[..i + 4], key) <= Occurrences(h[..i], key) + 1
  {
    var h := HistoryOf(LOOP_GAME);
    forall j, k | i <= j < k < i + 4 ensures h[j].position != h[k].position {
      WhereItRecurs(j, k);
    }
    hide HistoryOf, LOOP_GAME, Occurrences;
    OccurrencesStep(h, key, i + 1);
    OccurrencesStep(h, key, i + 2);
    OccurrencesStep(h, key, i + 3);
    OccurrencesStep(h, key, i + 4);
  }

  lemma {:induction false} NothingIsDecidedBefore()
    ensures Undecided(HistoryOf(LOOP_GAME)[..12])
  {
    var h := HistoryOf(LOOP_GAME);
    assert h[..0] == [];
    forall key ensures Occurrences(h[..12], key) <= 3 {
      OnceARound(key, 0);
      OnceARound(key, 4);
      OnceARound(key, 8);
    }
    forall n | 2 <= n <= 12 ensures VerdictOn(h[..12][..n]) == NoVerdict {
      OccurrencesGrow(h[..12], h[..12][..n][n - 1].position, n);
    }
  }

  /** A side that loses by perpetual check need not have checked on every move
      since the first occurrence. In this game, every move accepted and none
      before the last deciding it, Black's first move is quiet. */
  lemma {:induction false} QuietMoveForgiven() returns (start: Position, moves: seq<Move>)
    ensures Replay(start, moves).Success? && start.turn == Black
    ensures var ps := Replay(start, moves).value;
            && OccursFourTimes(ps, start, 0, 4, 8, |moves|)
            && !InCheck(ps[1], White)
            && Undecided(HistoryOf(ps)[..|moves|])
            && VerdictOn(HistoryOf(ps)) == PerpetualCheck(Black)
  {
    start, moves := GameAt(0), LOOP_MOVES;
    assert LOOP_GAME[0] == GameAt(0) && LOOP_GAME[12].turn == Black;
    hide GameAt, LOOP_GAME, LOOP_MOVES, HistoryOf, VerdictOn, InCheck, Replay;
    TheLoopIsPlayed();
    TheStartOccursFourTimes();
    OnlyTheFirstMoveIsQuiet();
    NothingIsDecidedBefore();
    VerdictOfAReplay(start, moves, 0, 4, 8);
  }

  // ------------------------------------- a reply that mates by a dropped pawn

  /** The black king in check along the fourth rank from a rook that the black
      bishop pins to the white king. */
  const PINNED_ROOK: Placement :=
    map[Coordinate(5, 4) := Piece(Rook, White), Coordinate(4, 3) := Piece(King, White),
        Coordinate(3, 2) := Piece(Pawn, White), Coordinate(5, 2) := Piece(Pawn, White),
        Coordinate(3, 3) := Piece(Pawn, White), Coordinate(5, 3) := Piece(Pawn, White),
        Coordinate(1, 4) := Piece(King, Black), Coordinate(6, 5) := Piece(Bishop, Black),
        Coordinate(3, 5) := Piece(Gold, Black)]

  const WHITE_PAWN: Square := Coordinate(4, 2)
  const BLACK_PAWN: Square := Coordinate(4, 4)

  /** White drops a pawn behind its king, and Black one between rook and king. */
  const AFTER_WHITE: Placement := PINNED_ROOK[WHITE_PAWN := Piece(Pawn, White)]
  const AFTER_BLACK: Placement := AFTER_WHITE[BLACK_PAWN := Piece(Pawn, Black)]

  const ONE_PAWN: Hand := [0, 0, 0, 0, 0, 0, 1]

  const WRITTEN_BOARD := Position(PINNED_ROOK, ONE_PAWN, ONE_PAWN, White)
  const BLACK_CHECKED := Position(AFTER_WHITE, ONE_PAWN, EMPTY_HAND, Black)
  const WHITE_MATED := Position(AFTER_BLACK, EMPTY_HAND, EMPTY_HAND, White)

  lemma BlackIsChecked()
    ensures BoardInCheck(AFTER_WHITE, Black)
  {
    CheckIsAttack(AFTER_WHITE, Black);
    hide BoardInCheck;
    assert TheKing(AFTER_WHITE, Coordinate(1, 4), Black);
    assert Bears(AFTER_WHITE, Coordinate(5, 4), Coordinate(1, 4));
  }

  lemma WhiteIsNotChecked()
    ensures !BoardInCheck(AFTER_WHITE, White)
  {
    CheckIsAttack(AFTER_WHITE, White);
    hide BoardInCheck;
    assert OnTheWay(Coordinate(6, 5), Coordinate(4, 3), 1) == Coordinate(5, 4);
  }

  lemma TheDropShutsOutTheRook()
    ensures !BoardInCheck(AFTER_BLACK, Black)
  {
    CheckIsAttack(AFTER_BLACK, Black);
    hide BoardInCheck;
    assert OnTheWay(Coordinate(5, 4), Coordinate(1, 4), 1) == Coordinate(4, 4);
  }

  lemma TheDroppedPawnChecks()
    ensures BoardInCheck(AFTER_BLACK, White)
  {
    CheckIsAttack(AFTER_BLACK, White);
    hide BoardInCheck;
    assert TheKing(AFTER_BLACK, Coordinate(4, 3), White);
    assert Bears(AFTER_BLACK, BLACK_PAWN, Coordinate(4, 3));
  }

  /** Only the rook and the king reach the dropped pawn, and the king no other
      square that is not its own side's. */
  lemma WhoTakesThePawn(from: Square, to: Square)
    requires Bears(AFTER_BLACK, from, to) && AFTER_BLACK[from].color == White
    requires to in AFTER_BLACK ==> AFTER_BLACK[to].color == Black
    ensures to == BLACK_PAWN ==> from == Coordinate(5, 4) || from == Coordinate(4, 3)
    ensures from == Coordinate(4, 3) ==> to == BLACK_PAWN || to == Coordinate(3, 4)
  {
    hide WayClear;
  }

  /** The board after a move of White's leaves its king attacked: by the gold if
      it moved, by the bishop if the rook left the line, else by the pawn. */
  lemma KingMovesIntoTheGold(b: Placement, to: Square)
    requires to == BLACK_PAWN || to == Coordinate(3, 4)
    requires forall s: Square :: IsKing(b, s, White) <==> s == to
    requires Coordinate(3, 5) in b && b[Coordinate(3, 5)] == Piece(Gold, Black)
    ensures KingAttacked(b, White)
  {
    assert TheKing(b, to, White);
    assert Bears(b, Coordinate(3, 5), to);
  }

  lemma TheRookIsPinned(b: Placement)
    requires forall s: Square :: IsKing(b, s, White) <==> s == Coordinate(4, 3)
    requires Coordinate(6, 5) in b && b[Coordinate(6, 5)] == Piece(Bishop, Black) && Coordinate(5, 4) !in b
    ensures KingAttacked(b, White)
  {
    assert TheKing(b, Coordinate(4, 3), White);
    assert OnTheWay(Coordinate(6, 5), Coordinate(4, 3), 1) == Coordinate(5, 4);
    assert Bears(b, Coordinate(6, 5), Coordinate(4, 3));
  }

  lemma ThePawnStays(b: Placement)
    requires forall s: Square :: IsKing(b, s, White) <==> s == Coordinate(4, 3)
    requires BLACK_PAWN in b && b[BLACK_PAWN] == Piece(Pawn, Black)
    ensures KingAttacked(b, White)
  {
    assert TheKing(b, Coordinate(4, 3), White);
    assert Bears(b, BLACK_PAWN, Coordinate(4, 3));
  }

  lemma TheKingStands(from: Square, to: Square, promote: bool, b: Placement)
    requires LawfulBoardMove(WHITE_MATED, from, to, promote)
    requires BoardAfter(WHITE_MATED, BoardMove(from, to, promote), b)
    ensures forall s: Square :: IsKing(b, s, White) <==> s == if from == Coordinate(4, 3) then to else Coordinate(4, 3)
  {
    hide Bears, CanGoOn;
    assert forall s: Square :: IsKing(AFTER_BLACK, s, White) <==> s == Coordinate(4, 3);
    assert from in AFTER_BLACK && AFTER_BLACK[from].kind == King ==> from == Coordinate(4, 3);
  }

  lemma NoMoveAnswers(from: Square, to: Square, promote: bool, b: Placement)
    requires LawfulBoardMove(WHITE_MATED, from, to, promote)
    requires BoardAfter(WHITE_MATED, BoardMove(from, to, promote), b)
    ensures KingAttacked(b, White)
  {
    TheKingStands(from, to, promote, b);
    WhoTakesThePawn(from, to);
    assert to != Coordinate(3, 5) ==> Coordinate(3, 5) in b && b[Coordinate(3, 5)] == Piece(Gold, Black);
    assert to != Coordinate(6, 5) ==> Coordinate(6, 5) in b && b[Coordinate(6, 5)] == Piece(Bishop, Black);
    assert to != BLACK_PAWN ==> BLACK_PAWN in b && b[BLACK_PAWN] == Piece(Pawn, Black);
    hide Bears, CanGoOn, KingAttacked, IsKing, AFTER_BLACK;
    if from == Coordinate(4, 3) {
      KingMovesIntoTheGold(b, to);
    } else if to == BLACK_PAWN {
      TheRookIsPinned(b);
    } else {
      ThePawnStays(b);
    }
  }

  lemma WhiteIsMated()
    ensures !HasLegalMove(WHITE_MATED)
  {
    forall reply: Move ensures ValidateSuspended(WHITE_MATED, reply).Failure? {
      SuspendedIsLawful(WHITE_MATED, reply);
      hide ValidateSuspended, LawfulBoardMove, BoardAfter, KingAttacked;
      if LawfulButForMate(WHITE_MATED, reply) {
        var b: Placement :| BoardAfter(WHITE_MATED, reply, b) && !KingAttacked(b, White);
        NoMoveAnswers(reply.from, reply.to, reply.promote, b);
      }
    }
  }

  /** An accepted pawn drop, made of a drop that nothing refuses. */
  lemma DropStands(p: Position, to: Square, next: Position)
    requires ApplyDrop(p, p.turn, HPawn, to) == Success(next) && !InCheck(next, p.turn)
    ensures ValidateSuspended(p, Drop(HPawn, to)) == Success(next)
  {
    hide ApplyDrop, BoardInCheck;
  }

  lemma TheHandIsEmptied()
    ensures Removed(ONE_PAWN, HPawn) == Some(EMPTY_HAND)
  {
    assert ONE_PAWN[6 := 0] == EMPTY_HAND;
  }

  lemma WhiteDrops()
    ensures ApplyDrop(WRITTEN_BOARD, White, HPawn, WHITE_PAWN) == Success(BLACK_CHECKED)
  {
    TheHandIsEmptied();
    assert !HasPawnOnFile(PINNED_ROOK, White, 4);
    hide Removed;
  }

  lemma BlackDrops()
    ensures ApplyDrop(BLACK_CHECKED, Black, HPawn, BLACK_PAWN) == Success(WHITE_MATED)
  {
    TheHandIsEmptied();
    assert !HasPawnOnFile(AFTER_WHITE, Black, 4);
    hide Removed;
  }

  /** On a board written with the waiting side in check, a reply can itself mate
      by a dropped pawn, and is then judged one way with the rule suspended and
      another with it in force. */
  lemma MatingReplyExists() returns (p: Position, to: Square, reply: Square)
    ensures InCheck(p, p.turn.Opponent())
    ensures ValidateSuspended(p, Drop(HPawn, to)).Success?
    ensures var next := ValidateSuspended(p, Drop(HPawn, to)).value;
            && InCheck(next, next.turn) && !InCheck(next, next.turn.Opponent())
            && ValidateSuspended(next, Drop(HPawn, reply)).Success?
            && MatesByPawnDrop(Drop(HPawn, reply), ValidateSuspended(next, Drop(HPawn, reply)).value)
            && ApplyMove(next, Drop(HPawn, reply)) == Failure(DropPawnMate(reply))
  {
    p, to, reply := WRITTEN_BOARD, WHITE_PAWN, BLACK_PAWN;
    WhiteDrops();
    BlackDrops();
    BlackIsChecked();
    WhiteIsNotChecked();
    TheDropShutsOutTheRook();
    TheDroppedPawnChecks();
    WhiteIsMated();
    TheWaitingSideIsChecked();
    hide AFTER_WHITE, AFTER_BLACK, PINNED_ROOK, BoardInCheck, HasLegalMove, ApplyDrop, ValidateSuspended;
    DropStands(p, to, BLACK_CHECKED);
    DropStands(BLACK_CHECKED, reply, WHITE_MATED);
  }

  lemma TheWaitingSideIsChecked()
    ensures BoardInCheck(PINNED_ROOK, Black)
  {
    CheckIsAttack(PINNED_ROOK, Black);
    hide BoardInCheck;
    assert TheKing(PINNED_ROOK, Coordinate(1, 4), Black);
    assert Bears(PINNED_ROOK, Coordinate(5, 4), Coordinate(1, 4));
  }
}
