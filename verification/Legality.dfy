/** Move validation and application (`src/game/legality.rs`) as functions of
    positions; `LegalityInPlace` has the same operations in the source's form. */
module Legality {
  import opened Wrappers
  import opened Position
  import opened Movement

  datatype Illegal =
    | EmptySquare(from: Square)
    | NotOwnPiece(from: Square)
    | OwnPieceOnDestination(to: Square)
    | NoSuchMove(from: Square, to: Square)
    | PathBlocked(from: Square, to: Square)
    | PromotionNotPermitted(from: Square, to: Square)
    | PromotionRequired(from: Square, to: Square)
    | KingLeftInCheck
    | NotInHand(kind: HandKind)
    | OccupiedSquare(to: Square)
    | DeadDrop(kind: HandKind, to: Square)
    | Nifu(file: int)
    | DropPawnMate(to: Square)

  type Outcome = Result<Position, Illegal>

  /** The two ways a move is judged: with mating pawn drops refused, or let be. */
  datatype Rule = Enforced | Suspended

  // ------------------------------------------------------------------ check

  predicate IsKing(b: Placement, s: Square, color: Color) {
    s in b && b[s] == Piece(King, color)
  }

  function FirstKing(b: Placement, color: Color, i: nat): (s: Option<Square>)
    requires i <= 81
    decreases 81 - i
  {
    if i == 81 then None
    else if IsKing(b, SquareAt(i), color) then Some(SquareAt(i))
    else FirstKing(b, color, i + 1)
  }

  /** `king_square`: the first king found in file-major order. */
  function KingSquare(b: Placement, color: Color): (s: Option<Square>) {
    FirstKing(b, color, 0)
  }

  predicate Attacks(b: Placement, from: Square, attacker: Color, target: Square) {
    from in b && b[from].color == attacker && ReachOf(b, from, b[from], target) == Reaches
  }

  predicate IsAttackedBy(b: Placement, target: Square, attacker: Color) {
    exists from: Square :: from in b && Attacks(b, from, attacker, target)
  }

  predicate BoardInCheck(b: Placement, color: Color) {
    var king := KingSquare(b, color);
    king.Some? && IsAttackedBy(b, king.value, color.Opponent())
  }

  predicate InCheck(p: Position, color: Color) {
    BoardInCheck(p.board, color)
  }

  // ------------------------------------------------------------ board moves

  /** The kind a board move arrives as, or why the promotion flag is refused. */
  function Arriving(piece: Piece, from: Square, to: Square, promote: bool): (k: Result<PieceKind, Illegal>) {
    if promote then
      if piece.kind.Promoted().None? then Failure(PromotionNotPermitted(from, to))
      else if !InPromotionZone(piece.color, from) && !InPromotionZone(piece.color, to)
      then Failure(PromotionNotPermitted(from, to))
      else Success(piece.kind.Promoted().value)
    else if MustPromote(piece.kind, piece.color, to) then Failure(PromotionRequired(from, to))
    else Success(piece.kind)
  }

  /** The mover's hand after capturing whatever stands on `to`. A King
      is held as nothing. */
  function HandAfterCapture(p: Position, mover: Color, to: Square): (h: Hand) {
    var captured := p.PieceAt(to);
    if captured.Some? && HeldAs(captured.value.kind).Some?
    then Added(p.HandOf(mover), HeldAs(captured.value.kind).value)
    else p.HandOf(mover)
  }

  /** The position a board move leaves: `from` emptied, the capture in hand,
      the piece on `to` as `arriving`, the turn passed. */
  function AfterBoardMove(p: Position, mover: Color, from: Square, to: Square, arriving: PieceKind): (r: Position) {
    WithHand(p, mover, HandAfterCapture(p, mover, to)).(
      board := Placed(Placed(p.board, from, None), to, Some(Piece(arriving, mover))),
      turn := mover.Opponent())
  }

  function ApplyBoardMove(p: Position, mover: Color, from: Square, to: Square, promote: bool): (r: Outcome) {
    var piece := p.PieceAt(from);
    if piece.None? then Failure(EmptySquare(from))
    else if piece.value.color != mover then Failure(NotOwnPiece(from))
    else if p.PieceAt(to).Some? && p.PieceAt(to).value.color == mover then Failure(OwnPieceOnDestination(to))
    else match ReachOf(p.board, from, piece.value, to)
      case Blocked => Failure(PathBlocked(from, to))
      case Unreachable => Failure(NoSuchMove(from, to))
      case Reaches =>
        var arriving := Arriving(piece.value, from, to, promote);
        if arriving.Failure? then Failure(arriving.error)
        else Success(AfterBoardMove(p, mover, from, to, arriving.value))
  }

  // ------------------------------------------------------------------ drops

  predicate IsDeadDrop(kind: HandKind, color: Color, to: Square) {
    MustPromote(kind.ToPieceKind(), color, to)
  }

  predicate HasPawnOnFile(b: Placement, color: Color, file: int)
    requires 1 <= file <= 9
  {
    exists rank :: 1 <= rank <= 9 && Coordinate(file, rank) in b && b[Coordinate(file, rank)] == Piece(Pawn, color)
  }

  function AfterDrop(p: Position, mover: Color, kind: HandKind, to: Square): (r: Position)
    requires CountOf(p.HandOf(mover), kind) != 0
  {
    WithHand(p, mover, Removed(p.HandOf(mover), kind).value).(
      board := Placed(p.board, to, Some(Piece(kind.ToPieceKind(), mover))),
      turn := mover.Opponent())
  }

  /** Why a drop is refused, in the order the tests are made. */
  function DropRefusal(p: Position, mover: Color, kind: HandKind, to: Square): (e: Option<Illegal>) {
    if CountOf(p.HandOf(mover), kind) == 0 then Some(NotInHand(kind))
    else if p.PieceAt(to).Some? then Some(OccupiedSquare(to))
    else if IsDeadDrop(kind, mover, to) then Some(DeadDrop(kind, to))
    else if kind == HPawn && HasPawnOnFile(p.board, mover, to.file) then Some(Nifu(to.file))
    else None
  }

  function ApplyDrop(p: Position, mover: Color, kind: HandKind, to: Square): (r: Outcome) {
    var refusal := DropRefusal(p, mover, kind, to);
    if refusal.Some? then Failure(refusal.value) else Success(AfterDrop(p, mover, kind, to))
  }

  // ------------------------------------------------------------- validation

  /** The move made on the board and in hand, before any king is looked at. */
  function Made(p: Position, mv: Move): (r: Outcome) {
    match mv
    case BoardMove(from, to, promote) => ApplyBoardMove(p, p.turn, from, to, promote)
    case Drop(kind, to) => ApplyDrop(p, p.turn, kind, to)
  }

  /** `validate` with the drop-pawn-mate rule suspended. */
  function ValidateSuspended(p: Position, mv: Move): (r: Outcome) {
    var made := Made(p, mv);
    if made.Success? && InCheck(made.value, p.turn) then Failure(KingLeftInCheck) else made
  }

  /** Some move at all is accepted with the rule suspended. */
  ghost predicate HasLegalMove(p: Position) {
    exists mv: Move :: ValidateSuspended(p, mv).Success?
  }

  /** `next`, reached by dropping a pawn, is taken for a mate. */
  ghost predicate MatesByPawnDrop(mv: Move, next: Position) {
    mv.Drop? && mv.piece == HPawn && InCheck(next, next.turn) && !HasLegalMove(next)
  }

  ghost function Validate(p: Position, mv: Move, rule: Rule): (r: Outcome) {
    var suspended := ValidateSuspended(p, mv);
    if rule.Enforced? && suspended.Success? && MatesByPawnDrop(mv, suspended.value)
    then Failure(DropPawnMate(mv.to))
    else suspended
  }

  ghost function ApplyMove(p: Position, mv: Move): (r: Outcome) {
    Validate(p, mv, Enforced)
  }

  // ---------------------------------------------------------------- lemmas

  lemma {:induction false} FirstKingIsFirst(b: Placement, color: Color, i: nat)
    requires i <= 81
    ensures FirstKing(b, color, i).Some? ==> IsKing(b, FirstKing(b, color, i).value, color)
    ensures FirstKing(b, color, i).None? ==> forall k :: i <= k < 81 ==> !IsKing(b, SquareAt(k), color)
    ensures forall k :: i <= k < 81 && FirstKing(b, color, i) == Some(SquareAt(k))
              ==> forall j :: i <= j < k ==> !IsKing(b, SquareAt(j), color)
    decreases 81 - i
  {
    if i < 81 && !IsKing(b, SquareAt(i), color) {
      FirstKingIsFirst(b, color, i + 1);
    } else if i < 81 {
      forall k | i <= k < 81 && SquareAt(k) == SquareAt(i) ensures k == i {
        SquareOrderIsABijection(i);
        SquareOrderIsABijection(k);
      }
    }
  }

  /** `king_square` finds a king whenever there is one. */
  lemma KingSquareFinds(b: Placement, color: Color)
    ensures KingSquare(b, color).Some? ==> IsKing(b, KingSquare(b, color).value, color)
    ensures KingSquare(b, color).None? ==> forall t: Square :: !IsKing(b, t, color)
  {
    FirstKingIsFirst(b, color, 0);
    forall t: Square | KingSquare(b, color).None? ensures !IsKing(b, t, color) {
      var i := IndexOf(t);
      assert SquareAt(i) == t;
    }
  }

  /** `king_square` depends on nothing but where that colour's kings stand. */
  lemma {:induction false} FirstKingAgrees(b: Placement, c: Placement, color: Color, i: nat)
    requires i <= 81
    requires forall s: Square :: IsKing(b, s, color) == IsKing(c, s, color)
    ensures FirstKing(b, color, i) == FirstKing(c, color, i)
    decreases 81 - i
  {
    if i < 81 {
      FirstKingAgrees(b, c, color, i + 1);
    }
  }
}
