/** The 27-point jishogi declaration (`src/game/declaration.rs`). */
module Declaration {
  import opened Position
  import opened Movement
  import opened Legality
  import opened Material
  import Runs

  const REQUIRED_PIECES := 10
  const MAJOR_POINTS := 5
  const MINOR_POINTS := 1

  function RequiredPoints(declarer: Color): (n: int) {
    if declarer.Black? then 28 else 27
  }

  function Points(kind: PieceKind): (n: int) {
    match kind
    case King => 0
    case Rook | PromotedRook | Bishop | PromotedBishop => MAJOR_POINTS
    case _ => MINOR_POINTS
  }

  datatype Census = Census(pieces: int, points: int)

  /** Whether the piece on `s` counts for `declarer` in the enemy camp. */
  predicate CountsInCamp(b: Placement, declarer: Color, s: Square) {
    InPromotionZone(declarer, s) && s in b && b[s].color == declarer && Points(b[s].kind) != 0
  }

  /** The census over the first `i` squares. */
  function CensusOf(b: Placement, declarer: Color, i: nat): (c: Census)
    requires i <= 81
  {
    if i == 0 then Census(0, 0)
    else
      var c := CensusOf(b, declarer, i - 1);
      var s := SquareAt(i - 1);
      if CountsInCamp(b, declarer, s) then Census(c.pieces + 1, c.points + Points(b[s].kind)) else c
  }

  predicate KingEntered(b: Placement, declarer: Color) {
    exists s: Square :: s in b && IsKing(b, s, declarer) && InPromotionZone(declarer, s)
  }

  function HandPoints(hand: Hand): (n: int) {
    CountOf(hand, HRook) * Points(Rook) + CountOf(hand, HBishop) * Points(Bishop)
    + CountOf(hand, HGold) * Points(Gold) + CountOf(hand, HSilver) * Points(Silver)
    + CountOf(hand, HKnight) * Points(Knight) + CountOf(hand, HLance) * Points(Lance)
    + CountOf(hand, HPawn) * Points(Pawn)
  }

  predicate Holds(p: Position, declarer: Color) {
    var camp := CensusOf(p.board, declarer, 81);
    && !InCheck(p, declarer)
    && KingEntered(p.board, declarer)
    && camp.pieces >= REQUIRED_PIECES
    && camp.points + HandPoints(p.HandOf(declarer)) >= RequiredPoints(declarer)
  }

  // ------------------------------------------------------- the source's form

  /** `camp_census`: one pass accumulating both numbers. */
  method CampCensus(p: Position, declarer: Color) returns (pieces: int, points: int)
    ensures Census(pieces, points) == CensusOf(p.board, declarer, 81)
  {
    pieces, points := 0, 0;
    for i := 0 to 81
      invariant Census(pieces, points) == CensusOf(p.board, declarer, i)
    {
      var square := SquareAt(i);
      if !InPromotionZone(declarer, square) || square !in p.board {
        continue;
      }
      var piece := p.board[square];
      if piece.color != declarer {
        continue;
      }
      var value := Points(piece.kind);
      if value == 0 {
        continue;
      }
      pieces := pieces + 1;
      points := points + value;
    }
  }

  /** `holds`: the chain of early returns. */
  method Adjudicate(p: Position, declarer: Color) returns (holds: bool)
    ensures holds <==> Holds(p, declarer)
  {
    if InCheck(p, declarer) {
      return false;
    }
    if !KingEntered(p.board, declarer) {
      return false;
    }
    var pieces, points := CampCensus(p, declarer);
    assert CensusOf(p.board, declarer, 81) == Census(pieces, points);
    if pieces < REQUIRED_PIECES {
      return false;
    }
    return points + HandPoints(p.HandOf(declarer)) >= RequiredPoints(declarer);
  }

  // ------------------------------------------------------ what is counted

  /** Where a declarer's pieces must have come: the camp it faces. */
  predicate EnemyCamp(declarer: Color, s: Square) {
    if declarer.Black? then s.rank <= 3 else s.rank >= 7
  }

  predicate IsMajor(kind: PieceKind) {
    kind == Rook || kind == PromotedRook || kind == Bishop || kind == PromotedBishop
  }

  /** The squares of the camp that hold a piece to be counted. */
  function CampSquares(b: Placement, declarer: Color): (s: set<Square>) {
    set s | s in b && b[s].color == declarer && b[s].kind != King && EnemyCamp(declarer, s)
  }

  /** Those of them that are rooks or bishops, promoted or not. */
  function CampMajors(b: Placement, declarer: Color): (s: set<Square>) {
    set s | s in CampSquares(b, declarer) && IsMajor(b[s].kind)
  }

  lemma CampMembership(b: Placement, declarer: Color, s: Square)
    ensures s in CampSquares(b, declarer) <==> CountsInCamp(b, declarer, s)
    ensures s in CampMajors(b, declarer) ==> CountsInCamp(b, declarer, s)
    ensures CountsInCamp(b, declarer, s)
        ==> s in b && Points(b[s].kind) == 1 + if s in CampMajors(b, declarer) then 4 else 0
  {
  }

  lemma {:induction false} CensusCountsBefore(b: Placement, declarer: Color, i: nat)
    requires i <= 81
    ensures CensusOf(b, declarer, i).pieces == |SquaresBefore(CampSquares(b, declarer), i)|
    ensures CensusOf(b, declarer, i).points
         == |SquaresBefore(CampSquares(b, declarer), i)| + 4 * |SquaresBefore(CampMajors(b, declarer), i)|
  {
    if i == 0 {
      assert SquaresBefore(CampSquares(b, declarer), 0) == {} == SquaresBefore(CampMajors(b, declarer), 0);
    } else {
      hide SquaresBefore, SquareAt, CountsInCamp, CampSquares, CampMajors, Points;
      var camp, majors := CampSquares(b, declarer), CampMajors(b, declarer);
      CensusCountsBefore(b, declarer, i - 1);
      SquaresBeforeGrows(camp, i - 1);
      SquaresBeforeGrows(majors, i - 1);
      CampMembership(b, declarer, SquareAt(i - 1));
      assert |SquaresBefore(camp, i)| == |SquaresBefore(camp, i - 1)| + if SquareAt(i - 1) in camp then 1 else 0;
      assert |SquaresBefore(majors, i)| == |SquaresBefore(majors, i - 1)| + if SquareAt(i - 1) in majors then 1 else 0;
    }
  }

  /** The census counts every non-king piece of the declarer in the camp once,
      one point each and four more for a rook or bishop. */
  lemma CensusCounts(b: Placement, declarer: Color)
    ensures CensusOf(b, declarer, 81).pieces == |CampSquares(b, declarer)|
    ensures CensusOf(b, declarer, 81).points == |CampSquares(b, declarer)| + 4 * |CampMajors(b, declarer)|
  {
    CensusCountsBefore(b, declarer, 81);
    assert SquaresBefore(CampSquares(b, declarer), 81) == CampSquares(b, declarer);
    assert SquaresBefore(CampMajors(b, declarer), 81) == CampMajors(b, declarer);
  }

  /** The number of pieces in a hand. */
  function HandSize(hand: Hand): (n: int) {
    hand[0] + hand[1] + hand[2] + hand[3] + hand[4] + hand[5] + hand[6]
  }

  /** The rule as it is stated: a declaration holds exactly when the declarer is
      not in check, has a king among the last three ranks, ten other pieces
      there, and 28 points (27 for White) counting those and the hand, a piece
      one point and a rook or bishop five. */
  lemma HoldsExactlyWhen(p: Position, declarer: Color)
    ensures Holds(p, declarer)
       <==> && !InCheck(p, declarer)
            && (exists s: Square :: IsKing(p.board, s, declarer) && EnemyCamp(declarer, s))
            && |CampSquares(p.board, declarer)| >= 10
            && |CampSquares(p.board, declarer)| + 4 * |CampMajors(p.board, declarer)|
               + HandSize(p.HandOf(declarer)) + 4 * (p.HandOf(declarer)[0] + p.HandOf(declarer)[1])
               >= if declarer.Black? then 28 else 27
  {
    hide CensusOf, CampSquares, CampMajors, InCheck, KingEntered, HandPoints, HandSize;
    CensusCounts(p.board, declarer);
    KingInCamp(p.board, declarer);
    HandPointsInWords(p.HandOf(declarer));
  }

  lemma KingInCamp(b: Placement, declarer: Color)
    ensures KingEntered(b, declarer) <==> exists s: Square :: IsKing(b, s, declarer) && EnemyCamp(declarer, s)
  {
  }

  lemma HandPointsInWords(hand: Hand)
    ensures HandPoints(hand) == HandSize(hand) + 4 * (hand[0] + hand[1])
  {
  }

  // ------------------------------------------------------------- never both

  /** The declaration's values as a valuation of the seven base kinds. */
  const POINT_WEIGHTS: seq<int> := [5, 5, 1, 1, 1, 1, 1]

  lemma PointsAreAValuation(kind: PieceKind)
    ensures Points(kind) == PieceValue(POINT_WEIGHTS, kind)
  {
  }

  lemma HandPointsAreItsValue(hand: Hand)
    ensures HandPoints(hand) == Dot(POINT_WEIGHTS, hand)
  {
  }

  /** What a side counts in the camp it holds on the board. */
  lemma {:induction false} CampPointsAreHeld(b: Placement, side: Color, i: nat)
    requires i <= 81
    ensures CensusOf(b, side, i).points <= BoardValue(POINT_WEIGHTS, b, side, i)
  {
    if i > 0 {
      CampPointsAreHeld(b, side, i - 1);
      var s := SquareAt(i - 1);
      if s in b {
        PointsAreAValuation(b[s].kind);
      }
    }
  }

  /** With a full set in play the two sides' totals share 54 points, one short
      of the two thresholds together. */
  lemma TheTwoTotalsShare54(p: Position)
    requires HoldsFullSet(p)
    ensures CensusOf(p.board, Black, 81).points + HandPoints(p.black)
          + CensusOf(p.board, White, 81).points + HandPoints(p.white) <= 54
    ensures RequiredPoints(Black) + RequiredPoints(White) == 55
  {
    CampPointsAreHeld(p.board, Black, 81);
    CampPointsAreHeld(p.board, White, 81);
    HandPointsAreItsValue(p.black);
    HandPointsAreItsValue(p.white);
    assert Total(POINT_WEIGHTS, p) == Dot(POINT_WEIGHTS, FULL_SET);
    assert Dot(POINT_WEIGHTS, FULL_SET) == 54;
  }

  /** In no position a run from hirate reaches do both sides hold a declaration. */
  lemma NeverBothDeclare(p: Position)
    requires Runs.Reachable(p)
    ensures !(Holds(p, Black) && Holds(p, White))
  {
    Runs.ReachableIsSound(p);
    TheTwoTotalsShare54(p);
  }
}
