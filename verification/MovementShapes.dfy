/** An independent account of how the pieces move, by the shape of the
    displacement alone, and that the tables and rays agree with it. */
module MovementShapes {
  import opened Wrappers
  import opened Position
  import opened Movement

  function Abs(n: int): (a: nat) {
    if n >= 0 then n else -n
  }

  function Sign(n: int): (s: int) {
    if n > 0 then 1 else if n < 0 then -1 else 0
  }

  /** Files crossed, either way. */
  function Side(from: Square, to: Square): (n: nat) {
    Abs(to.file - from.file)
  }

  /** Ranks gained toward the opponent. */
  function Ahead(from: Square, to: Square, color: Color): (n: int) {
    if color.Black? then from.rank - to.rank else to.rank - from.rank
  }

  function Distance(from: Square, to: Square): (n: nat) {
    if Side(from, to) >= Abs(to.rank - from.rank) then Side(from, to) else Abs(to.rank - from.rank)
  }

  /** One square away in any direction. */
  predicate Near(side: nat, ahead: int) {
    side <= 1 && -1 <= ahead <= 1 && (side != 0 || ahead != 0)
  }

  /** The shape of each kind's moves on an empty board. */
  predicate Shape(kind: PieceKind, side: nat, ahead: int) {
    match kind
    case King => Near(side, ahead)
    case Gold | PromotedSilver | PromotedKnight | PromotedLance | PromotedPawn =>
      Near(side, ahead) && !(side == 1 && ahead == -1)
    case Silver => Near(side, ahead) && ahead != 0 && !(side == 0 && ahead == -1)
    case Knight => side == 1 && ahead == 2
    case Pawn => side == 0 && ahead == 1
    case Lance => side == 0 && ahead >= 1
    case Rook => (side == 0) != (ahead == 0)
    case Bishop => side == Abs(ahead) && side >= 1
    case PromotedRook => (side == 0) != (ahead == 0) || Near(side, ahead)
    case PromotedBishop => (side == Abs(ahead) && side >= 1) || Near(side, ahead)
  }

  /** The `k`-th square of the straight way from one square to another. */
  function OnTheWay(from: Square, to: Square, k: nat): (c: Coordinate) {
    Coordinate(from.file + k * Sign(to.file - from.file), from.rank + k * Sign(to.rank - from.rank))
  }

  /** Nothing stands strictly between the two squares. */
  predicate WayClear(b: Placement, from: Square, to: Square) {
    forall k: nat :: 1 <= k < Distance(from, to) ==> OnTheWay(from, to, k) !in b
  }

  // ------------------------------------------------------------------- steps

  /** The part of a shape a kind's step table covers. */
  predicate StepShape(kind: PieceKind, side: nat, ahead: int) {
    match kind
    case PromotedRook => side == 1 && Abs(ahead) == 1
    case PromotedBishop => side + Abs(ahead) == 1
    case Rook | Bishop | Lance => false
    case _ => Shape(kind, side, ahead)
  }

  /** The displacement as the tables write it. */
  function Written(from: Square, to: Square, color: Color): (d: Delta) {
    if color.Black? then Delta(to.file - from.file, to.rank - from.rank)
    else Delta(from.file - to.file, from.rank - to.rank)
  }

  lemma StepIsDisplacement(from: Square, to: Square, color: Color, d: Delta)
    ensures Step(from, d, color) == Some(to) <==> d == Written(from, to, color)
  {
  }

  lemma StepTablesHaveTheShape(kind: PieceKind, d: Delta)
    ensures d in Steps(kind) <==> StepShape(kind, Abs(d.file), -d.rank)
  {
  }

  lemma StepsHaveTheShape(from: Square, piece: Piece, to: Square)
    ensures StepsTo(from, piece, to) <==> StepShape(piece.kind, Side(from, to), Ahead(from, to, piece.color))
  {
    var w := Written(from, to, piece.color);
    StepTablesHaveTheShape(piece.kind, w);
    assert Abs(w.file) == Side(from, to) && -w.rank == Ahead(from, to, piece.color);
    hide Steps, StepShape, Step, Written;
    StepIsDisplacement(from, to, piece.color, w);
    forall d | d in Steps(piece.kind) ensures Step(from, d, piece.color) == Some(to) <==> d == w {
      StepIsDisplacement(from, to, piece.color, d);
    }
  }

  // ------------------------------------------------------------------ slides

  /** The direction of the straight way, as the tables write it. */
  function WrittenSign(from: Square, to: Square, color: Color): (d: Delta) {
    var w := Written(from, to, color);
    Delta(Sign(w.file), Sign(w.rank))
  }

  /** The two squares share a rank, a file or a diagonal. */
  predicate Straight(from: Square, to: Square) {
    to.file == from.file || to.rank == from.rank || Side(from, to) == Abs(to.rank - from.rank)
  }

  /** A ray leads to a square only straight, in that direction, at that distance. */
  lemma RaysAreStraight(from: Square, d: Direction, color: Color, to: Square, n: nat)
    ensures OnRay(from, d, color, to, n)
       <==> n >= 1 && n == Distance(from, to) && Straight(from, to) && d == WrittenSign(from, to, color)
  {
    Scaled(n, Oriented(d, color).file);
    Scaled(n, Oriented(d, color).rank);
  }

  /** The squares of the ray are the squares of the way. */
  lemma RayIsTheWay(from: Square, d: Direction, color: Color, to: Square, k: nat)
    requires d == WrittenSign(from, to, color)
    ensures Along(from, d, color, k) == OnTheWay(from, to, k)
  {
  }

  predicate SlideShape(kind: PieceKind, d: Delta) {
    match kind
    case Rook | PromotedRook => (d.file == 0) != (d.rank == 0)
    case Bishop | PromotedBishop => d.file != 0 && d.rank != 0
    case Lance => d == Delta(0, -1)
    case _ => false
  }

  lemma SlideTablesHaveTheShape(kind: PieceKind, d: Direction)
    ensures d in Slides(kind) <==> SlideShape(kind, d)
  {
  }

  /** Some slide of the piece lies on the destination. */
  predicate SlidesToward(kind: PieceKind, from: Square, to: Square, color: Color) {
    from != to && Straight(from, to) && SlideShape(kind, WrittenSign(from, to, color))
  }

  lemma SlidesHaveTheShape(b: Placement, from: Square, piece: Piece, to: Square)
    ensures SlidesClear(b, from, piece, to)
       <==> SlidesToward(piece.kind, from, to, piece.color) && WayClear(b, from, to)
    ensures SlidesBehind(b, from, piece, to)
       <==> SlidesToward(piece.kind, from, to, piece.color) && !WayClear(b, from, to)
  {
    var w := WrittenSign(from, to, piece.color);
    var n := Distance(from, to);
    forall d: Direction, m: nat
      ensures OnRay(from, d, piece.color, to, m) <==> m >= 1 && m == n && Straight(from, to) && d == w
    {
      RaysAreStraight(from, d, piece.color, to, m);
    }
    assert n == 0 <==> from == to;
    if from != to {
      SlideTablesHaveTheShape(piece.kind, w);
      forall k: nat ensures Along(from, w, piece.color, k) == OnTheWay(from, to, k) {
        RayIsTheWay(from, w, piece.color, to, k);
      }
      hide Slides, SlideShape, OnRay, WrittenSign, Straight, Along, OnTheWay, Distance;
      assert Clear(b, from, w, piece.color, n) <==> WayClear(b, from, to);
      if Straight(from, to) {
        assert OnRay(from, w, piece.color, to, n);
      }
    }
  }

  // ----------------------------------------------------------------- together

  lemma ShapesAreStepsAndSlides(kind: PieceKind, from: Square, to: Square, color: Color)
    ensures Shape(kind, Side(from, to), Ahead(from, to, color))
       <==> StepShape(kind, Side(from, to), Ahead(from, to, color)) || SlidesToward(kind, from, to, color)
    ensures StepShape(kind, Side(from, to), Ahead(from, to, color)) && kind != Knight ==> Distance(from, to) == 1
    ensures SlidesToward(kind, from, to, color) ==> kind != Knight
  {
  }

  /** `reach`, by shape: a piece reaches a square exactly when the displacement
      has its shape and, for every kind but the knight, nothing stands between;
      it is blocked exactly when only the latter fails. */
  lemma ReachIsByShape(b: Placement, from: Square, piece: Piece, to: Square)
    ensures var shaped := Shape(piece.kind, Side(from, to), Ahead(from, to, piece.color));
            ReachOf(b, from, piece, to) == if !shaped then Unreachable
                                           else if piece.kind == Knight || WayClear(b, from, to) then Reaches
                                           else Blocked
  {
    ReachIsGeometry(b, from, piece, to);
    StepsHaveTheShape(from, piece, to);
    SlidesHaveTheShape(b, from, piece, to);
    ShapesAreStepsAndSlides(piece.kind, from, to, piece.color);
    assert Distance(from, to) == 1 ==> WayClear(b, from, to);
    hide Shape, StepShape, SlidesToward, Distance, WayClear, Side, Ahead, StepsTo, SlidesClear, SlidesBehind;
    assert ReachOf(b, from, piece, to) in {Reaches, Blocked, Unreachable};
  }

  /** What promotion does to a shape: a rook or bishop keeps its own and gains the
      squares next to it, every other piece moves as a gold. */
  lemma PromotedShapes(kind: PieceKind, side: nat, ahead: int)
    requires kind.Promoted().Some?
    ensures Shape(kind.Promoted().value, side, ahead)
       <==> if kind == Rook || kind == Bishop then Shape(kind, side, ahead) || Near(side, ahead)
            else Shape(Gold, side, ahead)
  {
  }
}
