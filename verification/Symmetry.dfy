/** The rules are the same for both sides: turning the board round and swapping
    colours, hands and turn commutes with `apply_move`. */
module Symmetry {
  import opened Wrappers
  import opened Position
  import opened Movement
  import opened Legality

  function Turned(s: Square): (t: Square) {
    Coordinate(10 - s.file, 10 - s.rank)
  }

  function TurnedMaybe(s: Option<Square>): (t: Option<Square>) {
    if s.Some? then Some(Turned(s.value)) else None
  }

  function Swapped(p: Piece): (q: Piece) {
    Piece(p.kind, p.color.Opponent())
  }

  function TurnedBoard(b: Placement): (c: Placement)
    ensures forall s: Square :: s in c <==> Turned(s) in b
    ensures forall s: Square :: s in c ==> c[s] == Swapped(b[Turned(s)])
  {
    map s | s in AllSquares() && Turned(s) in b :: Swapped(b[Turned(s)])
  }

  function TurnedPosition(p: Position): (q: Position) {
    Position(TurnedBoard(p.board), p.white, p.black, p.turn.Opponent())
  }

  function TurnedMove(mv: Move): (r: Move) {
    match mv
    case BoardMove(from, to, promote) => BoardMove(Turned(from), Turned(to), promote)
    case Drop(kind, to) => Drop(kind, Turned(to))
  }

  function TurnedIllegal(e: Illegal): (r: Illegal) {
    match e
    case EmptySquare(from) => EmptySquare(Turned(from))
    case NotOwnPiece(from) => NotOwnPiece(Turned(from))
    case OwnPieceOnDestination(to) => OwnPieceOnDestination(Turned(to))
    case NoSuchMove(from, to) => NoSuchMove(Turned(from), Turned(to))
    case PathBlocked(from, to) => PathBlocked(Turned(from), Turned(to))
    case PromotionNotPermitted(from, to) => PromotionNotPermitted(Turned(from), Turned(to))
    case PromotionRequired(from, to) => PromotionRequired(Turned(from), Turned(to))
    case KingLeftInCheck => KingLeftInCheck
    case NotInHand(kind) => NotInHand(kind)
    case OccupiedSquare(to) => OccupiedSquare(Turned(to))
    case DeadDrop(kind, to) => DeadDrop(kind, Turned(to))
    case Nifu(file) => Nifu(10 - file)
    case DropPawnMate(to) => DropPawnMate(Turned(to))
  }

  function TurnedOutcome(o: Outcome): (r: Outcome) {
    match o
    case Success(p) => Success(TurnedPosition(p))
    case Failure(e) => Failure(TurnedIllegal(e))
  }

  ghost predicate AtMostOneKing(b: Placement, color: Color) {
    forall s: Square, t: Square :: IsKing(b, s, color) && IsKing(b, t, color) ==> s == t
  }

  ghost predicate AtMostOneKingEach(p: Position) {
    AtMostOneKing(p.board, Black) && AtMostOneKing(p.board, White)
  }

  // -------------------------------------------------------------- movement

  lemma StepTurned(s: Square, d: Delta, color: Color)
    ensures Step(Turned(s), d, color.Opponent()) == TurnedMaybe(Step(s, d, color))
  {
  }

  lemma {:induction false} WalkTurned(
      b: Placement, s: Square, d: Direction, color: Color, to: Square, blocked: bool)
    ensures Walk(TurnedBoard(b), Turned(s), d, color.Opponent(), Turned(to), blocked)
         == Walk(b, s, d, color, to, blocked)
    decreases ToEdge(s, d, color)
  {
    StepTurned(s, d, color);
    var next := Step(s, d, color);
    if next.Some? && next.value != to {
      assert Turned(Turned(next.value)) == next.value;
      WalkTurned(b, next.value, d, color, to, blocked || next.value in b);
    }
  }

  lemma TurnedIsInjective(s: Option<Square>, t: Square)
    ensures TurnedMaybe(s) == Some(Turned(t)) <==> s == Some(t)
  {
  }

  lemma RayTurned(b: Placement, from: Square, d: Direction, color: Color, to: Square)
    ensures RayReach(TurnedBoard(b), Turned(from), d, color.Opponent(), Turned(to)) == RayReach(b, from, d, color, to)
  {
    WalkTurned(b, from, d, color, to, false);
  }

  lemma ReachTurned(b: Placement, from: Square, piece: Piece, to: Square)
    ensures ReachOf(TurnedBoard(b), Turned(from), Swapped(piece), Turned(to)) == ReachOf(b, from, piece, to)
  {
    hide TurnedBoard, Step, RayReach;
    forall d | d in Steps(piece.kind)
      ensures Step(Turned(from), d, piece.color.Opponent()) == Some(Turned(to))
         <==> Step(from, d, piece.color) == Some(to)
    {
      StepTurned(from, d, piece.color);
      TurnedIsInjective(Step(from, d, piece.color), to);
    }
    forall d | d in Slides(piece.kind)
      ensures RayReach(TurnedBoard(b), Turned(from), d, piece.color.Opponent(), Turned(to))
           == RayReach(b, from, d, piece.color, to)
    {
      RayTurned(b, from, d, piece.color, to);
    }
  }

  // ------------------------------------------------------------------ check

  lemma AttackTurned(b: Placement, from: Square, attacker: Color, target: Square)
    ensures Attacks(TurnedBoard(b), Turned(from), attacker.Opponent(), Turned(target))
       <==> Attacks(b, from, attacker, target)
  {
    assert Turned(Turned(from)) == from;
    if from in b {
      ReachTurned(b, from, b[from], target);
    }
  }

  lemma AttackedTurned(b: Placement, target: Square, attacker: Color)
    ensures IsAttackedBy(TurnedBoard(b), Turned(target), attacker.Opponent()) <==> IsAttackedBy(b, target, attacker)
  {
    if IsAttackedBy(b, target, attacker) {
      var from: Square :| Attacks(b, from, attacker, target);
      AttackTurned(b, from, attacker, target);
      assert Attacks(TurnedBoard(b), Turned(from), attacker.Opponent(), Turned(target));
    }
    if IsAttackedBy(TurnedBoard(b), Turned(target), attacker.Opponent()) {
      var from: Square :| Attacks(TurnedBoard(b), from, attacker.Opponent(), Turned(target));
      assert Turned(Turned(from)) == from;
      AttackTurned(b, Turned(from), attacker, target);
      assert Attacks(b, Turned(from), attacker, target);
    }
  }

  lemma IsKingTurned(b: Placement, s: Square, color: Color)
    ensures IsKing(TurnedBoard(b), s, color.Opponent()) <==> IsKing(b, Turned(s), color)
    ensures Turned(Turned(s)) == s
  {
  }

  /** The last king in file-major order: the one the turned board finds first. */
  function LastKing(b: Placement, color: Color, i: nat): (s: Option<Square>)
    requires i <= 81
  {
    if i == 0 then None
    else if IsKing(b, SquareAt(i - 1), color) then Some(SquareAt(i - 1))
    else LastKing(b, color, i - 1)
  }

  function LastKingSquare(b: Placement, color: Color): (s: Option<Square>) {
    LastKing(b, color, 81)
  }

  predicate LastKingAttacked(b: Placement, color: Color) {
    var king := LastKingSquare(b, color);
    king.Some? && IsAttackedBy(b, king.value, color.Opponent())
  }

  /** The first and the last king of a colour are in check or out of it together. */
  predicate CheckedAlike(b: Placement, color: Color) {
    BoardInCheck(b, color) <==> LastKingAttacked(b, color)
  }

  lemma TurnedIndex(i: nat)
    requires i < 81
    ensures Turned(SquareAt(i)) == SquareAt(80 - i) && Turned(SquareAt(80 - i)) == SquareAt(i)
  {
  }

  /** Turning the board turns the search for a king end to end. */
  lemma {:induction false} FirstKingTurned(b: Placement, color: Color, i: nat)
    requires i <= 81
    ensures FirstKing(TurnedBoard(b), color.Opponent(), i) == TurnedMaybe(LastKing(b, color, 81 - i))
    decreases 81 - i
  {
    hide IsKing, TurnedBoard, SquareAt, Turned;
    if i < 81 {
      TurnedIndex(i);
      IsKingTurned(b, SquareAt(i), color);
      FirstKingTurned(b, color, i + 1);
    }
  }

  /** On every board, check on the turned board is an attack on the last king. */
  lemma BoardInCheckTurned(b: Placement, color: Color)
    ensures BoardInCheck(TurnedBoard(b), color.Opponent()) <==> LastKingAttacked(b, color)
  {
    hide TurnedBoard, Turned;
    FirstKingTurned(b, color, 0);
    if LastKingSquare(b, color).Some? {
      AttackedTurned(b, LastKingSquare(b, color).value, color.Opponent());
    }
  }

  lemma {:induction false} LastKingIsAKing(b: Placement, color: Color, i: nat)
    requires i <= 81
    ensures LastKing(b, color, i).Some? ==> IsKing(b, LastKing(b, color, i).value, color)
    ensures LastKing(b, color, i).None? ==> forall k :: 0 <= k < i ==> !IsKing(b, SquareAt(k), color)
  {
    if i > 0 && !IsKing(b, SquareAt(i - 1), color) {
      LastKingIsAKing(b, color, i - 1);
    }
  }

  lemma KingsAreFoundFromBothEnds(b: Placement, color: Color)
    ensures KingSquare(b, color).Some? <==> LastKingSquare(b, color).Some?
    ensures LastKingSquare(b, color).Some? ==> IsKing(b, LastKingSquare(b, color).value, color)
  {
    hide IsKing, KingSquare;
    KingSquareFinds(b, color);
    LastKingIsAKing(b, color, 81);
    if KingSquare(b, color).Some? {
      assert SquareAt(IndexOf(KingSquare(b, color).value)) == KingSquare(b, color).value;
    }
  }

  /** They differ only where two kings of a colour stand and just one of the
      first and the last is attacked. */
  lemma CheckedAlikeExactly(b: Placement, color: Color)
    ensures !CheckedAlike(b, color)
       <==> && KingSquare(b, color).Some? && LastKingSquare(b, color).Some?
            && IsAttackedBy(b, KingSquare(b, color).value, color.Opponent())
            != IsAttackedBy(b, LastKingSquare(b, color).value, color.Opponent())
    ensures !CheckedAlike(b, color) ==> !AtMostOneKing(b, color)
  {
    hide IsKing, IsAttackedBy;
    KingsAreFoundFromBothEnds(b, color);
    KingSquareFinds(b, color);
  }

  lemma InCheckTurned(p: Position, color: Color)
    requires AtMostOneKing(p.board, color)
    ensures InCheck(TurnedPosition(p), color.Opponent()) <==> InCheck(p, color)
  {
    hide BoardInCheck, AtMostOneKing;
    BoardInCheckTurned(p.board, color);
    CheckedAlikeExactly(p.board, color);
  }

  // ------------------------------------------------------------- the moves

  lemma TurnedAgain(t: Square, s: Square)
    ensures Turned(t) == s <==> t == Turned(s)
  {
  }

  lemma PlacedTurned(b: Placement, s: Square, piece: Option<Piece>)
    ensures TurnedBoard(Placed(b, s, piece))
         == Placed(TurnedBoard(b), Turned(s), if piece.Some? then Some(Swapped(piece.value)) else None)
  {
    hide Turned, Swapped, TurnedBoard;
    var left := TurnedBoard(Placed(b, s, piece));
    var right := Placed(TurnedBoard(b), Turned(s), if piece.Some? then Some(Swapped(piece.value)) else None);
    forall t: Square
      ensures t in left <==> t in right
      ensures t in left ==> left[t] == right[t]
    {
      TurnedAgain(t, s);
    }
    hide Placed;
    assert left == right;
  }

  lemma PieceAtTurned(p: Position, s: Square)
    ensures TurnedPosition(p).PieceAt(Turned(s))
         == if p.PieceAt(s).Some? then Some(Swapped(p.PieceAt(s).value)) else None
  {
  }

  lemma ArrivingTurned(piece: Piece, from: Square, to: Square, promote: bool)
    ensures Arriving(Swapped(piece), Turned(from), Turned(to), promote)
         == match Arriving(piece, from, to, promote)
            case Success(k) => Success(k)
            case Failure(e) => Failure(TurnedIllegal(e))
  {
  }

  lemma AfterBoardMoveTurned(p: Position, mover: Color, from: Square, to: Square, arriving: PieceKind)
    ensures AfterBoardMove(TurnedPosition(p), mover.Opponent(), Turned(from), Turned(to), arriving)
         == TurnedPosition(AfterBoardMove(p, mover, from, to, arriving))
  {
    hide TurnedBoard, Placed;
    PieceAtTurned(p, to);
    PlacedTurned(p.board, from, None);
    PlacedTurned(Placed(p.board, from, None), to, Some(Piece(arriving, mover)));
  }

  lemma BoardMoveTurned(p: Position, mover: Color, from: Square, to: Square, promote: bool)
    ensures ApplyBoardMove(TurnedPosition(p), mover.Opponent(), Turned(from), Turned(to), promote)
         == TurnedOutcome(ApplyBoardMove(p, mover, from, to, promote))
  {
    hide TurnedBoard, AfterBoardMove, Arriving, ReachOf;
    PieceAtTurned(p, from);
    PieceAtTurned(p, to);
    if p.PieceAt(from).Some? {
      var piece := p.PieceAt(from).value;
      ReachTurned(p.board, from, piece, to);
      ArrivingTurned(piece, from, to, promote);
      var arriving := Arriving(piece, from, to, promote);
      if arriving.Success? {
        AfterBoardMoveTurned(p, mover, from, to, arriving.value);
      }
    }
  }

  lemma PawnOnFileTurned(b: Placement, color: Color, file: int)
    requires 1 <= file <= 9
    ensures HasPawnOnFile(TurnedBoard(b), color.Opponent(), 10 - file) <==> HasPawnOnFile(b, color, file)
  {
    var c := TurnedBoard(b);
    if HasPawnOnFile(b, color, file) {
      var rank :| 1 <= rank <= 9 && Coordinate(file, rank) in b && b[Coordinate(file, rank)] == Piece(Pawn, color);
      assert Turned(Coordinate(10 - file, 10 - rank)) == Coordinate(file, rank);
      assert Coordinate(10 - file, 10 - rank) in c;
    }
    if HasPawnOnFile(c, color.Opponent(), 10 - file) {
      var rank :| 1 <= rank <= 9 && Coordinate(10 - file, rank) in c
        && c[Coordinate(10 - file, rank)] == Piece(Pawn, color.Opponent());
      assert Turned(Coordinate(10 - file, rank)) == Coordinate(file, 10 - rank);
      assert b[Coordinate(file, 10 - rank)] == Piece(Pawn, color);
    }
  }

  lemma AfterDropTurned(p: Position, mover: Color, kind: HandKind, to: Square)
    requires CountOf(p.HandOf(mover), kind) != 0
    ensures AfterDrop(TurnedPosition(p), mover.Opponent(), kind, Turned(to))
         == TurnedPosition(AfterDrop(p, mover, kind, to))
  {
    hide TurnedBoard, Placed;
    PlacedTurned(p.board, to, Some(Piece(kind.ToPieceKind(), mover)));
  }

  lemma DeadDropTurned(kind: HandKind, color: Color, to: Square)
    ensures IsDeadDrop(kind, color.Opponent(), Turned(to)) <==> IsDeadDrop(kind, color, to)
  {
  }

  lemma DropTestsTurned(p: Position, mover: Color, kind: HandKind, to: Square)
    ensures TurnedPosition(p).HandOf(mover.Opponent()) == p.HandOf(mover)
    ensures TurnedPosition(p).PieceAt(Turned(to)).Some? <==> p.PieceAt(to).Some?
    ensures HasPawnOnFile(TurnedPosition(p).board, mover.Opponent(), Turned(to).file)
       <==> HasPawnOnFile(p.board, mover, to.file)
  {
    PieceAtTurned(p, to);
    PawnOnFileTurned(p.board, mover, to.file);
    hide HasPawnOnFile, TurnedBoard;
  }

  lemma DropRefusalTurned(p: Position, mover: Color, kind: HandKind, to: Square)
    ensures DropRefusal(TurnedPosition(p), mover.Opponent(), kind, Turned(to))
         == match DropRefusal(p, mover, kind, to)
            case Some(e) => Some(TurnedIllegal(e))
            case None => None
  {
    assert TurnedIllegal(NotInHand(kind)) == NotInHand(kind);
    assert TurnedIllegal(OccupiedSquare(to)) == OccupiedSquare(Turned(to));
    assert TurnedIllegal(DeadDrop(kind, to)) == DeadDrop(kind, Turned(to));
    assert TurnedIllegal(Nifu(to.file)) == Nifu(Turned(to).file);
    hide TurnedIllegal, IsDeadDrop, HasPawnOnFile, TurnedPosition, Turned, CountOf;
    DeadDropTurned(kind, mover, to);
    DropTestsTurned(p, mover, kind, to);
  }

  lemma DropTurned(p: Position, mover: Color, kind: HandKind, to: Square)
    ensures ApplyDrop(TurnedPosition(p), mover.Opponent(), kind, Turned(to))
         == TurnedOutcome(ApplyDrop(p, mover, kind, to))
  {
    DropRefusalTurned(p, mover, kind, to);
    if ApplyDrop(p, mover, kind, to).Success? {
      AfterDropTurned(p, mover, kind, to);
    }
    hide TurnedPosition, AfterDrop, DropRefusal;
  }

  lemma MadeTurned(p: Position, mv: Move)
    ensures Made(TurnedPosition(p), TurnedMove(mv)) == TurnedOutcome(Made(p, mv))
  {
    match mv
    case BoardMove(from, to, promote) => BoardMoveTurned(p, p.turn, from, to, promote);
    case Drop(kind, to) => DropTurned(p, p.turn, kind, to);
  }

  /** No move makes a second king. */
  lemma MovesMakeNoKing(p: Position, mv: Move, color: Color)
    requires AtMostOneKing(p.board, color)
    requires Made(p, mv).Success?
    ensures AtMostOneKing(Made(p, mv).value.board, color)
  {
    var next := Made(p, mv).value.board;
    match mv
    case BoardMove(from, to, promote) =>
      forall s: Square, t: Square | IsKing(next, s, color) && IsKing(next, t, color) ensures s == t {
        assert s != from && t != from;
        assert IsKing(p.board, if s == to then from else s, color);
        assert IsKing(p.board, if t == to then from else t, color);
      }
    case Drop(kind, to) =>
      forall s: Square, t: Square | IsKing(next, s, color) && IsKing(next, t, color) ensures s == t {
        assert IsKing(p.board, s, color) && IsKing(p.board, t, color);
      }
  }

  lemma MoveTurnedTwice(mv: Move)
    ensures TurnedMove(TurnedMove(mv)) == mv
  {
  }

  // -------------------------------------------------- when turning commutes

  /** The answer on a made move, once its two tests are known. */
  function Answer(made: Outcome, leftInCheck: bool, mates: bool, to: Square): (r: Outcome) {
    if made.Failure? then made
    else if leftInCheck then Failure(KingLeftInCheck)
    else if mates then Failure(DropPawnMate(to))
    else made
  }

  lemma TurnedOutcomeKeeps(o: Outcome)
    ensures TurnedOutcome(o).Success? <==> o.Success?
  {
  }

  /** Two answers on one made move mirror each other only if their tests agree
      as far as they are made. */
  lemma AnswersTurn(made: Outcome, check: bool, mate: bool, checkTurned: bool, mateTurned: bool, to: Square)
    ensures Answer(TurnedOutcome(made), checkTurned, mateTurned, Turned(to))
         == TurnedOutcome(Answer(made, check, mate, to))
       <==> (made.Success? ==> check == checkTurned && (check || mate == mateTurned))
  {
    hide TurnedPosition;
  }

  /** What the turned board answers with the rule suspended, in the terms of the
      board as it stands. */
  lemma SuspendedOnTheTurnedBoard(p: Position, mv: Move)
    ensures ValidateSuspended(TurnedPosition(p), TurnedMove(mv))
         == if Made(p, mv).Success? && LastKingAttacked(Made(p, mv).value.board, p.turn)
            then Failure(KingLeftInCheck) else TurnedOutcome(Made(p, mv))
  {
    hide Made, BoardInCheck, LastKingAttacked, TurnedBoard, TurnedMove;
    MadeTurned(p, mv);
    var made := Made(p, mv);
    if made.Success? {
      BoardInCheckTurned(made.value.board, p.turn);
    }
  }

  /** With the drop-pawn-mate rule suspended, turning the board commutes with a
      move exactly when the board it leaves has the mover's first and last king
      checked alike. */
  lemma SuspendedTurnsExactly(p: Position, mv: Move)
    ensures ValidateSuspended(TurnedPosition(p), TurnedMove(mv)) == TurnedOutcome(ValidateSuspended(p, mv))
       <==> (Made(p, mv).Success? ==> CheckedAlike(Made(p, mv).value.board, p.turn))
  {
    hide Made, BoardInCheck, LastKingAttacked, TurnedPosition, TurnedMove, TurnedIllegal, TurnedOutcome;
    SuspendedOnTheTurnedBoard(p, mv);
    if Made(p, mv).Success? {
      var next := Made(p, mv).value.board;
      AnswersTurn(Made(p, mv), BoardInCheck(next, p.turn), false, LastKingAttacked(next, p.turn), false, mv.to);
      TurnedOutcomeKeeps(Made(p, mv));
    }
  }

  /** Some reply leaves the replier's last king out of attack. */
  ghost predicate LastKingHasReply(p: Position) {
    exists reply: Move :: Made(p, reply).Success? && !LastKingAttacked(Made(p, reply).value.board, p.turn)
  }

  lemma HasLegalMoveTurned(p: Position)
    ensures HasLegalMove(TurnedPosition(p)) <==> LastKingHasReply(p)
  {
    hide ValidateSuspended, Made, LastKingAttacked, TurnedPosition, TurnedMove;
    forall mv: Move
      ensures ValidateSuspended(TurnedPosition(p), TurnedMove(mv)).Success?
         <==> Made(p, mv).Success? && !LastKingAttacked(Made(p, mv).value.board, p.turn)
    {
      SuspendedOnTheTurnedBoard(p, mv);
    }
    if HasLegalMove(TurnedPosition(p)) {
      var mv: Move :| ValidateSuspended(TurnedPosition(p), mv).Success?;
      MoveTurnedTwice(mv);
      assert Made(p, TurnedMove(mv)).Success?;
    }
    if LastKingHasReply(p) {
      var mv: Move :| Made(p, mv).Success? && !LastKingAttacked(Made(p, mv).value.board, p.turn);
      assert ValidateSuspended(TurnedPosition(p), TurnedMove(mv)).Success?;
    }
  }

  /** The move is a pawn drop that mates the last king, as the turned board sees
      a mate. */
  ghost predicate MatesLastKing(mv: Move, next: Position) {
    mv.Drop? && mv.piece == HPawn && LastKingAttacked(next.board, next.turn) && !LastKingHasReply(next)
  }

  lemma MateTurned(mv: Move, next: Position)
    ensures MatesByPawnDrop(TurnedMove(mv), TurnedPosition(next)) <==> MatesLastKing(mv, next)
  {
    hide HasLegalMove, BoardInCheck, LastKingAttacked, LastKingHasReply, TurnedBoard;
    BoardInCheckTurned(next.board, next.turn);
    HasLegalMoveTurned(next);
  }

  lemma ApplyMoveAnswers(p: Position, mv: Move)
    ensures Made(p, mv).Failure? ==> ApplyMove(p, mv) == Made(p, mv)
    ensures Made(p, mv).Success? ==>
      var next := Made(p, mv).value;
      ApplyMove(p, mv)
      == Answer(Made(p, mv), BoardInCheck(next.board, p.turn), MatesByPawnDrop(mv, next), mv.to)
  {
    hide Made, MatesByPawnDrop, BoardInCheck;
  }

  /** What the turned board answers, in the terms of the board as it stands. */
  lemma ApplyMoveOnTheTurnedBoard(p: Position, mv: Move)
    ensures Made(p, mv).Failure? ==> ApplyMove(TurnedPosition(p), TurnedMove(mv)) == TurnedOutcome(Made(p, mv))
    ensures Made(p, mv).Success? ==>
      var next := Made(p, mv).value;
      ApplyMove(TurnedPosition(p), TurnedMove(mv))
      == Answer(TurnedOutcome(Made(p, mv)), LastKingAttacked(next.board, p.turn), MatesLastKing(mv, next),
                Turned(mv.to))
  {
    assert TurnedMove(mv).to == Turned(mv.to);
    hide ValidateSuspended, Made, MatesByPawnDrop, MatesLastKing, LastKingAttacked, TurnedPosition, TurnedMove;
    SuspendedOnTheTurnedBoard(p, mv);
    if Made(p, mv).Success? {
      MateTurned(mv, Made(p, mv).value);
    }
  }

  /** Turning the board commutes with a move, all the rules applied, exactly when
      the move cannot be made at all, or the board it leaves has the mover's
      first and last king checked alike and, unless they are in check, a pawn
      drop mates the first king of the other side if and only if it mates the
      last. */
  ghost predicate TurnsAlike(p: Position, mv: Move) {
    Made(p, mv).Success? ==>
      var next := Made(p, mv).value;
      && CheckedAlike(next.board, p.turn)
      && (BoardInCheck(next.board, p.turn) || (MatesByPawnDrop(mv, next) <==> MatesLastKing(mv, next)))
  }

  /** The colour symmetry and its exact boundary, in every position: turning the
      board commutes with `apply_move`, refusals included, if and only if
      `TurnsAlike`. */
  lemma ColourBlindExactly(p: Position, mv: Move)
    ensures ApplyMove(TurnedPosition(p), TurnedMove(mv)) == TurnedOutcome(ApplyMove(p, mv)) <==> TurnsAlike(p, mv)
  {
    hide Made, BoardInCheck, LastKingAttacked, TurnedPosition, TurnedMove, TurnedOutcome, Answer, ApplyMove,
      MatesByPawnDrop, MatesLastKing;
    ApplyMoveAnswers(p, mv);
    ApplyMoveOnTheTurnedBoard(p, mv);
    if Made(p, mv).Success? {
      var next := Made(p, mv).value;
      AnswersTurn(Made(p, mv), BoardInCheck(next.board, p.turn), MatesByPawnDrop(mv, next),
                  LastKingAttacked(next.board, p.turn), MatesLastKing(mv, next), mv.to);
    }
  }

  /** For every move but a pawn drop that checks a first or a last king, the
      boundary is the mover's own kings alone. */
  lemma ColourBlindButForPawnDrops(p: Position, mv: Move)
    requires mv.Drop? && mv.piece == HPawn && Made(p, mv).Success? ==>
      var next := Made(p, mv).value;
      !BoardInCheck(next.board, next.turn) && !LastKingAttacked(next.board, next.turn)
    ensures ApplyMove(TurnedPosition(p), TurnedMove(mv)) == TurnedOutcome(ApplyMove(p, mv))
       <==> (Made(p, mv).Success? ==> CheckedAlike(Made(p, mv).value.board, p.turn))
  {
    hide Made, BoardInCheck, LastKingAttacked, TurnedPosition, TurnedMove, HasLegalMove, LastKingHasReply;
    ColourBlindExactly(p, mv);
  }

  // -------------------------------------------------- with one king a side

  lemma OneKingIsCheckedAlike(p: Position, mv: Move)
    requires AtMostOneKingEach(p) && Made(p, mv).Success?
    ensures AtMostOneKingEach(Made(p, mv).value)
    ensures CheckedAlike(Made(p, mv).value.board, Black) && CheckedAlike(Made(p, mv).value.board, White)
  {
    hide Made, CheckedAlike, AtMostOneKing;
    MovesMakeNoKing(p, mv, Black);
    MovesMakeNoKing(p, mv, White);
    CheckedAlikeExactly(Made(p, mv).value.board, Black);
    CheckedAlikeExactly(Made(p, mv).value.board, White);
  }

  lemma OneKingRepliesAlike(p: Position, reply: Move)
    requires AtMostOneKingEach(p)
    ensures ValidateSuspended(p, reply).Success?
       <==> Made(p, reply).Success? && !LastKingAttacked(Made(p, reply).value.board, p.turn)
  {
    assert p.turn == Black || p.turn == White;
    hide Made, AtMostOneKingEach, BoardInCheck, LastKingAttacked;
    if Made(p, reply).Success? {
      OneKingIsCheckedAlike(p, reply);
    }
  }

  lemma OneKingIsMatedAlike(mv: Move, next: Position)
    requires AtMostOneKingEach(next) && CheckedAlike(next.board, next.turn)
    ensures MatesByPawnDrop(mv, next) <==> MatesLastKing(mv, next)
  {
    hide Made, ValidateSuspended, AtMostOneKingEach, BoardInCheck, LastKingAttacked;
    forall reply: Move
      ensures ValidateSuspended(next, reply).Success?
         <==> Made(next, reply).Success? && !LastKingAttacked(Made(next, reply).value.board, next.turn)
    {
      OneKingRepliesAlike(next, reply);
    }
  }

  /** With at most one king a side, as in every run from hirate, turning the
      board round commutes with `apply_move`, the refusals and the squares or
      file they name included. */
  lemma RulesAreColourBlind(p: Position, mv: Move)
    requires AtMostOneKingEach(p)
    ensures ApplyMove(TurnedPosition(p), TurnedMove(mv)) == TurnedOutcome(ApplyMove(p, mv))
  {
    hide Made, CheckedAlike, MatesByPawnDrop, MatesLastKing, AtMostOneKingEach, TurnedPosition, TurnedOutcome,
      ApplyMove;
    ColourBlindExactly(p, mv);
    if Made(p, mv).Success? {
      var next := Made(p, mv).value;
      assert (p.turn == Black || p.turn == White) && (next.turn == Black || next.turn == White);
      OneKingIsCheckedAlike(p, mv);
      OneKingIsMatedAlike(mv, Made(p, mv).value);
    }
  }

  /** Turning twice is turning not at all, so the symmetry runs both ways. */
  lemma TurningTwice(p: Position)
    ensures TurnedPosition(TurnedPosition(p)) == p
  {
    BoardTurnedTwice(p.board);
    hide TurnedBoard;
  }

  lemma BoardTurnedTwice(b: Placement)
    ensures TurnedBoard(TurnedBoard(b)) == b
  {
    hide TurnedBoard;
    var twice := TurnedBoard(TurnedBoard(b));
    forall s: Square
      ensures s in twice <==> s in b
      ensures s in twice ==> twice[s] == b[s]
    {
      assert Turned(Turned(s)) == s;
    }
    hide Turned, Swapped;
    assert twice == b;
  }
}
