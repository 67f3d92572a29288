/** Material: what each side holds on the board and in hand, for any valuation
    of the seven base kinds; what a move passes from one side to the other; and
    that nothing is ever gained or lost. */
module Material {
  import opened Wrappers
  import opened Position
  import opened Movement
  import opened Legality

  /** A value for each hand kind, in the order of its index; a king has none. */
  type Weights = w: seq<int> | |w| == 7 witness [0, 0, 0, 0, 0, 0, 0]

  /** The set a game is played with: rooks, bishops, golds, silvers, knights,
      lances, pawns. */
  const FULL_SET: seq<int> := [2, 2, 4, 4, 4, 4, 18]

  function Dot(w: Weights, n: seq<int>): (v: int)
    requires |n| == 7
  {
    w[0] * n[0] + w[1] * n[1] + w[2] * n[2] + w[3] * n[3] + w[4] * n[4] + w[5] * n[5] + w[6] * n[6]
  }

  function PieceValue(w: Weights, kind: PieceKind): (v: int) {
    match HeldAs(kind)
    case Some(held) => w[held.Index()]
    case None => 0
  }

  /** What `side` has on one square. */
  function ValueOn(w: Weights, b: Placement, side: Color, s: Square): (v: int) {
    if s in b && b[s].color == side then PieceValue(w, b[s].kind) else 0
  }

  /** What `side` has on the first `i` squares. */
  function BoardValue(w: Weights, b: Placement, side: Color, i: nat): (v: int)
    requires i <= 81
  {
    if i == 0 then 0 else BoardValue(w, b, side, i - 1) + ValueOn(w, b, side, SquareAt(i - 1))
  }

  /** Everything `side` holds, on the board and in hand. */
  function Holdings(w: Weights, p: Position, side: Color): (v: int) {
    BoardValue(w, p.board, side, 81) + Dot(w, p.HandOf(side))
  }

  function Total(w: Weights, p: Position): (v: int) {
    Holdings(w, p, Black) + Holdings(w, p, White)
  }

  ghost predicate HoldsFullSet(p: Position) {
    forall w: Weights :: Total(w, p) == Dot(w, FULL_SET)
  }

  // ----------------------------------------------------- one square, one hand

  lemma {:induction false} PlacedValue(
      w: Weights, b: Placement, s: Square, piece: Option<Piece>, side: Color, i: nat)
    requires i <= 81
    ensures BoardValue(w, Placed(b, s, piece), side, i)
         == BoardValue(w, b, side, i)
          + if IndexOf(s) < i
            then (if piece.Some? && piece.value.color == side then PieceValue(w, piece.value.kind) else 0)
                 - ValueOn(w, b, side, s)
            else 0
  {
    if i > 0 {
      PlacedValue(w, b, s, piece, side, i - 1);
      SquareOrderIsABijection(i - 1);
      hide PieceValue;
    }
  }

  lemma AddedValue(w: Weights, hand: Hand, kind: HandKind)
    requires CountOf(hand, kind) < 255
    ensures Dot(w, Added(hand, kind)) == Dot(w, hand) + w[kind.Index()]
  {
  }

  lemma RemovedValue(w: Weights, hand: Hand, kind: HandKind)
    requires CountOf(hand, kind) > 0
    ensures Dot(w, Removed(hand, kind).value) == Dot(w, hand) - w[kind.Index()]
  {
  }

  // ---------------------------------------------------- what a move passes over

  /** Promotion changes no base kind, and makes no king. */
  lemma ArrivingKeepsBase(piece: Piece, from: Square, to: Square, promote: bool)
    requires Arriving(piece, from, to, promote).Success?
    ensures HeldAs(Arriving(piece, from, to, promote).value) == HeldAs(piece.kind)
    ensures Arriving(piece, from, to, promote).value == King <==> piece.kind == King
  {
  }

  /** A board move passes what it captures from the opponent to the mover, and
      nothing else changes hands. */
  lemma BoardMovesTransferTheCapture(w: Weights, p: Position, from: Square, to: Square, promote: bool)
    requires ApplyBoardMove(p, p.turn, from, to, promote).Success?
    requires forall kind :: CountOf(p.HandOf(p.turn), kind) < 255
    ensures var next := ApplyBoardMove(p, p.turn, from, to, promote).value;
            var captured := ValueOn(w, p.board, p.turn.Opponent(), to);
            && Holdings(w, next, p.turn) == Holdings(w, p, p.turn) + captured
            && Holdings(w, next, p.turn.Opponent()) == Holdings(w, p, p.turn.Opponent()) - captured
  {
    hide Dot, ReachOf;
    var arriving := Arriving(p.board[from], from, to, promote).value;
    ArrivingKeepsBase(p.board[from], from, to, promote);
    var lifted := Placed(p.board, from, None);
    if to in p.board && HeldAs(p.board[to].kind).Some? {
      AddedValue(w, p.HandOf(p.turn), HeldAs(p.board[to].kind).value);
    }
    hide Arriving, Added;
    forall side
      ensures BoardValue(w, Placed(lifted, to, Some(Piece(arriving, p.turn))), side, 81)
           == BoardValue(w, p.board, side, 81) - ValueOn(w, p.board, side, to)
    {
      PlacedValue(w, p.board, from, None, side, 81);
      PlacedValue(w, lifted, to, Some(Piece(arriving, p.turn)), side, 81);
    }
  }

  /** A drop changes neither side's holdings. */
  lemma DropsTransferNothing(w: Weights, p: Position, kind: HandKind, to: Square, side: Color)
    requires ApplyDrop(p, p.turn, kind, to).Success?
    ensures Holdings(w, ApplyDrop(p, p.turn, kind, to).value, side) == Holdings(w, p, side)
  {
    hide Dot;
    PlacedValue(w, p.board, to, Some(Piece(kind.ToPieceKind(), p.turn)), side, 81);
    RemovedValue(w, p.HandOf(p.turn), kind);
    hide Removed;
  }

  // ------------------------------------------------------------ hand bounds

  function Unit(k: nat): (w: Weights)
    requires k < 7
  {
    seq(7, i => if i == k then 1 else 0)
  }

  lemma {:induction false} BoardValueNonNegative(w: Weights, b: Placement, side: Color, i: nat)
    requires i <= 81 && forall k :: 0 <= k < 7 ==> w[k] >= 0
    ensures BoardValue(w, b, side, i) >= 0
  {
    if i > 0 {
      BoardValueNonNegative(w, b, side, i - 1);
    }
  }

  /** With a full set in play no hand holds more of a kind than there are. */
  lemma HandsWithinTheSet(p: Position, color: Color, kind: HandKind)
    requires HoldsFullSet(p)
    ensures CountOf(p.HandOf(color), kind) <= FULL_SET[kind.Index()] <= 18
  {
    var w := Unit(kind.Index());
    assert Total(w, p) == Dot(w, FULL_SET);
    BoardValueNonNegative(w, p.board, Black, 81);
    BoardValueNonNegative(w, p.board, White, 81);
  }

  // ----------------------------------------------------- counting, in words

  /** The squares whose piece is `side`'s and goes into a hand as `kind`. */
  function SquaresOf(b: Placement, kind: HandKind, side: Color): (s: set<Square>) {
    set s | s in b && b[s].color == side && HeldAs(b[s].kind) == Some(kind)
  }

  function SquaresBefore(squares: set<Square>, i: nat): (s: set<Square>) {
    set s | s in squares && IndexOf(s) < i
  }

  lemma SquaresBeforeGrows(squares: set<Square>, i: nat)
    requires i < 81
    ensures SquareAt(i) !in SquaresBefore(squares, i)
    ensures SquaresBefore(squares, i + 1)
         == if SquareAt(i) in squares then SquaresBefore(squares, i) + {SquareAt(i)} else SquaresBefore(squares, i)
  {
  }

  lemma {:induction false} UnitValueCounts(b: Placement, kind: HandKind, side: Color, i: nat)
    requires i <= 81
    ensures BoardValue(Unit(kind.Index()), b, side, i) == |SquaresBefore(SquaresOf(b, kind, side), i)|
  {
    if i > 0 {
      UnitValueCounts(b, kind, side, i - 1);
      SquaresBeforeGrows(SquaresOf(b, kind, side), i - 1);
      UnitOn(b, kind, side, SquareAt(i - 1));
      hide SquaresBefore, IndexOf, SquareAt, SquaresOf, ValueOn, Unit;
    } else {
      assert SquaresBefore(SquaresOf(b, kind, side), 0) == {};
    }
  }

  lemma UnitOn(b: Placement, kind: HandKind, side: Color, s: Square)
    ensures ValueOn(Unit(kind.Index()), b, side, s) == if s in SquaresOf(b, kind, side) then 1 else 0
  {
  }

  /** A full set means: of each base kind, the squares holding it, promoted or
      not, and both hands' counts add up to the number the game has. */
  lemma FullSetInPieces(p: Position, kind: HandKind)
    requires HoldsFullSet(p)
    ensures |SquaresOf(p.board, kind, Black)| + |SquaresOf(p.board, kind, White)|
          + CountOf(p.black, kind) + CountOf(p.white, kind)
         == FULL_SET[kind.Index()]
  {
    var w := Unit(kind.Index());
    assert Total(w, p) == Dot(w, FULL_SET);
    forall side ensures BoardValue(w, p.board, side, 81) == |SquaresOf(p.board, kind, side)| {
      UnitValueCounts(p.board, kind, side, 81);
      assert SquaresBefore(SquaresOf(p.board, kind, side), 81) == SquaresOf(p.board, kind, side);
    }
  }

  // ----------------------------------------------------------------- hirate

  /** One file's nine squares. */
  lemma FileValue(w: Weights, b: Placement, c: Color, f: int)
    requires 1 <= f <= 9
    ensures BoardValue(w, b, c, 9 * f) == BoardValue(w, b, c, 9 * (f - 1))
      + ValueOn(w, b, c, Coordinate(f, 1)) + ValueOn(w, b, c, Coordinate(f, 2)) + ValueOn(w, b, c, Coordinate(f, 3))
      + ValueOn(w, b, c, Coordinate(f, 4)) + ValueOn(w, b, c, Coordinate(f, 5)) + ValueOn(w, b, c, Coordinate(f, 6))
      + ValueOn(w, b, c, Coordinate(f, 7)) + ValueOn(w, b, c, Coordinate(f, 8)) + ValueOn(w, b, c, Coordinate(f, 9))
  {
    hide BoardValue, ValueOn, SquareAt;
    var i := 9 * (f - 1);
    ThreeSquares(w, b, c, i);
    ThreeSquares(w, b, c, i + 3);
    ThreeSquares(w, b, c, i + 6);
    forall r | 1 <= r <= 9 ensures IndexOf(Coordinate(f, r)) == i + r - 1 {
    }
    assert SquareAt(i) == Coordinate(f, 1);
  }

  lemma ThreeSquares(w: Weights, b: Placement, c: Color, i: nat)
    requires i + 3 <= 81
    ensures BoardValue(w, b, c, i + 3) == BoardValue(w, b, c, i)
      + ValueOn(w, b, c, SquareAt(i)) + ValueOn(w, b, c, SquareAt(i + 1)) + ValueOn(w, b, c, SquareAt(i + 2))
  {
    assert BoardValue(w, b, c, i + 1) == BoardValue(w, b, c, i) + ValueOn(w, b, c, SquareAt(i));
    assert BoardValue(w, b, c, i + 2) == BoardValue(w, b, c, i + 1) + ValueOn(w, b, c, SquareAt(i + 1));
  }

  lemma HirateValueOn(w: Weights, c: Color, s: Square)
    ensures ValueOn(w, HiratePosition().board, c, s)
         == if HirateAt(s).Some? && HirateAt(s).value.color == c then PieceValue(w, HirateAt(s).value.kind) else 0
  {
  }

  function BackRankValue(w: Weights, f: int): (v: int)
    requires 1 <= f <= 9
    ensures v == PieceValue(w, BackRank(f))
  {
    if f == 1 || f == 9 then w[5] else if f == 2 || f == 8 then w[4]
    else if f == 3 || f == 7 then w[3] else if f == 4 || f == 6 then w[2] else 0
  }

  /** What a side has on a file beside its back piece and its pawn. */
  function MajorValue(w: Weights, c: Color, f: int): (v: int) {
    if f == 2 then if c.Black? then w[0] else w[1]
    else if f == 8 then if c.Black? then w[1] else w[0]
    else 0
  }

  lemma HirateFile(w: Weights, c: Color, f: int)
    requires 1 <= f <= 9
    ensures BoardValue(w, HiratePosition().board, c, 9 * f)
         == BoardValue(w, HiratePosition().board, c, 9 * (f - 1)) + BackRankValue(w, f) + w[6] + MajorValue(w, c, f)
  {
    var b := HiratePosition().board;
    hide HiratePosition, BoardValue;
    FileValue(w, b, c, f);
    HirateValueOn(w, c, Coordinate(f, 1));
    HirateValueOn(w, c, Coordinate(f, 2));
    HirateValueOn(w, c, Coordinate(f, 3));
    HirateValueOn(w, c, Coordinate(f, 4));
    HirateValueOn(w, c, Coordinate(f, 5));
    HirateValueOn(w, c, Coordinate(f, 6));
    HirateValueOn(w, c, Coordinate(f, 7));
    HirateValueOn(w, c, Coordinate(f, 8));
    HirateValueOn(w, c, Coordinate(f, 9));
  }

  /** Half the set for each side. */
  lemma HirateBoardValue(w: Weights, c: Color)
    ensures BoardValue(w, HiratePosition().board, c, 81)
         == w[0] + w[1] + 2 * w[2] + 2 * w[3] + 2 * w[4] + 2 * w[5] + 9 * w[6]
  {
    var b := HiratePosition().board;
    assert BoardValue(w, b, c, 0) == 0;
    assert BackRankValue(w, 1) == w[5] == BackRankValue(w, 9) && BackRankValue(w, 2) == w[4] == BackRankValue(w, 8);
    assert BackRankValue(w, 3) == w[3] == BackRankValue(w, 7) && BackRankValue(w, 4) == w[2] == BackRankValue(w, 6);
    assert BackRankValue(w, 5) == 0;
    hide BoardValue, HiratePosition, PieceValue, BackRank, BackRankValue;
    HirateFile(w, c, 1);
    HirateFile(w, c, 2);
    HirateFile(w, c, 3);
    HirateFile(w, c, 4);
    HirateFile(w, c, 5);
    HirateFile(w, c, 6);
    HirateFile(w, c, 7);
    HirateFile(w, c, 8);
    HirateFile(w, c, 9);
  }

  lemma HirateHoldsFullSet()
    ensures HoldsFullSet(HiratePosition())
  {
    assert HiratePosition().black == HiratePosition().white == EMPTY_HAND;
    forall w: Weights ensures Total(w, HiratePosition()) == Dot(w, FULL_SET) {
      hide BoardValue, HiratePosition;
      HirateBoardValue(w, Black);
      HirateBoardValue(w, White);
      assert FULL_SET == [2, 2, 4, 4, 4, 4, 18];
      assert Dot(w, EMPTY_HAND) == 0;
    }
  }
}
