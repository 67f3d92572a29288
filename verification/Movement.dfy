/** Movement patterns, rays and reach (`src/game/legality.rs`, lines 406-513). */
module Movement {
  import opened Wrappers
  import opened Position

  /** A displacement written from Black's side: rank -1 is one square forward. */
  datatype Delta = Delta(file: int, rank: int)

  /** A sliding direction moves at most one square each way, and does move. */
  predicate IsDirection(d: Delta) {
    -1 <= d.file <= 1 && -1 <= d.rank <= 1 && d != Delta(0, 0)
  }

  type Direction = d: Delta | IsDirection(d) witness Delta(0, -1)

  datatype Reach = Reaches | Blocked | Unreachable

  const KING_STEPS: seq<Delta> :=
    [Delta(0, -1), Delta(1, -1), Delta(-1, -1), Delta(1, 0), Delta(-1, 0), Delta(0, 1), Delta(1, 1), Delta(-1, 1)]
  const GOLD_STEPS: seq<Delta> :=
    [Delta(0, -1), Delta(1, -1), Delta(-1, -1), Delta(1, 0), Delta(-1, 0), Delta(0, 1)]
  const SILVER_STEPS: seq<Delta> :=
    [Delta(0, -1), Delta(1, -1), Delta(-1, -1), Delta(1, 1), Delta(-1, 1)]
  const KNIGHT_STEPS: seq<Delta> := [Delta(1, -2), Delta(-1, -2)]
  const PAWN_STEPS: seq<Delta> := [Delta(0, -1)]
  const ORTHOGONAL: seq<Direction> := [Delta(0, -1), Delta(0, 1), Delta(1, 0), Delta(-1, 0)]
  const DIAGONAL: seq<Direction> := [Delta(1, -1), Delta(-1, -1), Delta(1, 1), Delta(-1, 1)]
  const FORWARD: seq<Direction> := [Delta(0, -1)]

  function Steps(kind: PieceKind): (ds: seq<Delta>) {
    match kind
    case King => KING_STEPS
    case Gold | PromotedSilver | PromotedKnight | PromotedLance | PromotedPawn => GOLD_STEPS
    case Silver => SILVER_STEPS
    case Knight => KNIGHT_STEPS
    case Pawn => PAWN_STEPS
    case PromotedRook => DIAGONAL
    case PromotedBishop => ORTHOGONAL
    case Rook | Bishop | Lance => []
  }

  function Slides(kind: PieceKind): (ds: seq<Direction>) {
    match kind
    case Rook | PromotedRook => ORTHOGONAL
    case Bishop | PromotedBishop => DIAGONAL
    case Lance => FORWARD
    case _ => []
  }

  /** A displacement seen from `color`'s side. */
  function Oriented(d: Delta, color: Color): (r: Delta) {
    if color.Black? then d else Delta(-d.file, -d.rank)
  }

  function Step(s: Square, d: Delta, color: Color): (r: Option<Square>) {
    var o := Oriented(d, color);
    NewSquare(s.file + o.file, s.rank + o.rank)
  }

  predicate StepsTo(from: Square, piece: Piece, to: Square) {
    exists d :: d in Steps(piece.kind) && Step(from, d, piece.color) == Some(to)
  }

  /** How many steps of `d` are left before the edge; the walk's variant. */
  function ToEdge(s: Square, d: Direction, color: Color): (n: nat) {
    var o := Oriented(d, color);
    if o.file == 1 then 9 - s.file
    else if o.file == -1 then s.file - 1
    else if o.rank == 1 then 9 - s.rank
    else s.rank - 1
  }

  /** The walk of `ray` from `s` on, some square already passed being occupied
      exactly when `blocked`. */
  function Walk(b: Placement, s: Square, d: Direction, color: Color, to: Square, blocked: bool): (r: Reach)
    decreases ToEdge(s, d, color)
  {
    var next := Step(s, d, color);
    if next.None? then Unreachable
    else if next.value == to then if blocked then Blocked else Reaches
    else Walk(b, next.value, d, color, to, blocked || next.value in b)
  }

  function RayReach(b: Placement, from: Square, d: Direction, color: Color, to: Square): (r: Reach) {
    Walk(b, from, d, color, to, false)
  }

  /** Whether some slide of the piece gets as far as `r` toward `to`. */
  predicate SlidesWith(b: Placement, from: Square, piece: Piece, to: Square, r: Reach) {
    exists d :: d in Slides(piece.kind) && RayReach(b, from, d, piece.color, to) == r
  }

  function ReachOf(b: Placement, from: Square, piece: Piece, to: Square): (r: Reach) {
    if StepsTo(from, piece, to) then Reaches
    else if SlidesWith(b, from, piece, to, Reaches) then Reaches
    else if SlidesWith(b, from, piece, to, Blocked) then Blocked
    else Unreachable
  }

  // ------------------------------------------------------- the loops in place

  /** `ray`: the walk as the loop that updates `square` and `blocked`. */
  method Ray(b: Placement, from: Square, d: Direction, color: Color, to: Square) returns (r: Reach)
    ensures r == RayReach(b, from, d, color, to)
  {
    var square: Square := from;
    var blocked := false;
    var next := Step(square, d, color);
    while next.Some?
      invariant next == Step(square, d, color)
      invariant Walk(b, square, d, color, to, blocked) == RayReach(b, from, d, color, to)
      decreases ToEdge(square, d, color)
    {
      if next.value == to {
        return if blocked then Blocked else Reaches;
      }
      if next.value in b {
        blocked := true;
      }
      square := next.value;
      next := Step(square, d, color);
    }
    return Unreachable;
  }

  /** `reach`: the step table first, then every slide, remembering a block. */
  method ReachLoop(b: Placement, from: Square, piece: Piece, to: Square) returns (r: Reach)
    ensures r == ReachOf(b, from, piece, to)
  {
    if StepsTo(from, piece, to) {
      return Reaches;
    }
    var blocked := false;
    var slides := Slides(piece.kind);
    for i := 0 to |slides|
      invariant forall j :: 0 <= j < i ==> RayReach(b, from, slides[j], piece.color, to) != Reaches
      invariant blocked <==> exists j :: 0 <= j < i && RayReach(b, from, slides[j], piece.color, to) == Blocked
    {
      var walked := Ray(b, from, slides[i], piece.color, to);
      match walked
      case Reaches => return Reaches;
      case Blocked => blocked := true;
      case Unreachable =>
    }
    return if blocked then Blocked else Unreachable;
  }

  // --------------------------------------------------------------- geometry

  /** The coordinate `n` steps of `d` away, on the board or off it. */
  function Along(s: Coordinate, d: Delta, color: Color, n: nat): (c: Coordinate) {
    var o := Oriented(d, color);
    Coordinate(s.file + n * o.file, s.rank + n * o.rank)
  }

  /** `to` lies `n >= 1` slide steps away. */
  predicate OnRay(from: Square, d: Direction, color: Color, to: Square, n: nat) {
    n >= 1 && Along(from, d, color, n) == to
  }

  /** No piece stands strictly between `from` and the `n`-th square. */
  predicate Clear(b: Placement, from: Square, d: Direction, color: Color, n: nat) {
    forall k: nat :: 1 <= k < n ==> Along(from, d, color, k) !in b
  }

  lemma AlongShifts(s: Coordinate, d: Delta, color: Color, n: nat)
    ensures Along(s, d, color, n + 1) == Along(Along(s, d, color, 1), d, color, n)
    ensures Along(s, d, color, 0) == s
  {
  }

  lemma Scaled(n: int, u: int)
    requires -1 <= u <= 1
    ensures u == 0 || u == 1 || u == -1
    ensures n * u == (if u == 1 then n else if u == -1 then -n else 0)
  {
  }

  /** Between two squares of the board every coordinate of a ray is on the board. */
  lemma RayStaysOnBoard(s: Square, d: Direction, color: Color, n: nat, k: nat)
    requires k <= n && OnBoard(Along(s, d, color, n))
    ensures OnBoard(Along(s, d, color, k))
  {
    var o := Oriented(d, color);
    Scaled(n, o.file);
    Scaled(n, o.rank);
    Scaled(k, o.file);
    Scaled(k, o.rank);
  }

  /** A direction reaches each square at one distance only. */
  lemma OneDistance(from: Square, d: Direction, color: Color, to: Square, m: nat, n: nat)
    requires OnRay(from, d, color, to, m) && OnRay(from, d, color, to, n)
    ensures m == n
  {
  }

  lemma {:induction false} WalkFinds(
      b: Placement, s: Square, d: Direction, color: Color, to: Square, blocked: bool, n: nat)
    requires OnRay(s, d, color, to, n)
    ensures Walk(b, s, d, color, to, blocked)
         == if blocked || !Clear(b, s, d, color, n) then Blocked else Reaches
    decreases n
  {
    RayStaysOnBoard(s, d, color, n, 1);
    var next: Square := Along(s, d, color, 1);
    assert Step(s, d, color) == Some(next);
    if next == to {
      OneDistance(s, d, color, to, n, 1);
    } else {
      AlongShifts(s, d, color, n - 1);
      WalkFinds(b, next, d, color, to, blocked || next in b, n - 1);
      forall k: nat | 1 <= k < n
        ensures Along(s, d, color, k) == if k == 1 then next else Along(next, d, color, k - 1)
      {
        AlongShifts(s, d, color, k - 1);
      }
      if next !in b && Clear(b, next, d, color, n - 1) {
        assert Clear(b, s, d, color, n);
      }
      if Clear(b, s, d, color, n) {
        forall k: nat | 1 <= k < n - 1
          ensures Along(next, d, color, k) !in b
        {
          AlongShifts(s, d, color, k);
        }
        assert Along(s, d, color, 1) !in b;
      }
    }
  }

  lemma {:induction false} WalkMisses(
      b: Placement, s: Square, d: Direction, color: Color, to: Square, blocked: bool)
    requires forall n: nat :: !OnRay(s, d, color, to, n)
    ensures Walk(b, s, d, color, to, blocked) == Unreachable
    decreases ToEdge(s, d, color)
  {
    var next := Step(s, d, color);
    if next.Some? {
      assert Along(s, d, color, 1) == next.value;
      assert !OnRay(s, d, color, to, 1);
      forall n: nat
        ensures !OnRay(next.value, d, color, to, n)
      {
        AlongShifts(s, d, color, n);
        assert !OnRay(s, d, color, to, n + 1);
      }
      WalkMisses(b, next.value, d, color, to, blocked || next.value in b);
    }
  }

  /** What one ray answers, as geometry: the destination is some `n >= 1` steps
      away, and what decides between the two answers is whether a piece stands
      strictly between. */
  lemma RayIsGeometry(b: Placement, from: Square, d: Direction, color: Color, to: Square)
    ensures RayReach(b, from, d, color, to) == Reaches
       <==> exists n: nat :: OnRay(from, d, color, to, n) && Clear(b, from, d, color, n)
    ensures RayReach(b, from, d, color, to) == Blocked
       <==> exists n: nat :: OnRay(from, d, color, to, n) && !Clear(b, from, d, color, n)
  {
    if n: nat :| OnRay(from, d, color, to, n) {
      WalkFinds(b, from, d, color, to, false, n);
      forall m: nat | OnRay(from, d, color, to, m) ensures m == n {
        OneDistance(from, d, color, to, m, n);
      }
    } else {
      WalkMisses(b, from, d, color, to, false);
    }
  }

  /** A slide of the piece lies on the destination with the way clear. */
  ghost predicate SlidesClear(b: Placement, from: Square, piece: Piece, to: Square) {
    exists d: Direction, n: nat :: d in Slides(piece.kind)
      && OnRay(from, d, piece.color, to, n) && Clear(b, from, d, piece.color, n)
  }

  /** A slide of the piece lies on the destination, behind another piece. */
  ghost predicate SlidesBehind(b: Placement, from: Square, piece: Piece, to: Square) {
    exists d: Direction, n: nat :: d in Slides(piece.kind)
      && OnRay(from, d, piece.color, to, n) && !Clear(b, from, d, piece.color, n)
  }

  /** `reach` is geometry: it reaches by a step or along a clear slide, and is
      blocked exactly when it only lies on a slide behind a piece. */
  lemma ReachIsGeometry(b: Placement, from: Square, piece: Piece, to: Square)
    ensures ReachOf(b, from, piece, to) == Reaches
       <==> StepsTo(from, piece, to) || SlidesClear(b, from, piece, to)
    ensures ReachOf(b, from, piece, to) == Blocked
       <==> !StepsTo(from, piece, to) && !SlidesClear(b, from, piece, to) && SlidesBehind(b, from, piece, to)
  {
    forall d: Direction | d in Slides(piece.kind)
      ensures RayReach(b, from, d, piece.color, to) == Reaches
         <==> exists n: nat :: OnRay(from, d, piece.color, to, n) && Clear(b, from, d, piece.color, n)
      ensures RayReach(b, from, d, piece.color, to) == Blocked
         <==> exists n: nat :: OnRay(from, d, piece.color, to, n) && !Clear(b, from, d, piece.color, n)
    {
      RayIsGeometry(b, from, d, piece.color, to);
    }
  }

  lemma {:induction false} WalkLosesNothing(
      b: Placement, fewer: Placement, s: Square, d: Direction, color: Color, to: Square, blocked: bool, now: bool)
    requires fewer.Keys <= b.Keys && (now ==> blocked)
    requires Walk(b, s, d, color, to, blocked) == Reaches
    ensures Walk(fewer, s, d, color, to, now) == Reaches
    decreases ToEdge(s, d, color)
  {
    var next := Step(s, d, color);
    if next.value != to {
      assert next.value in fewer.Keys ==> next.value in b.Keys;
      WalkLosesNothing(b, fewer, next.value, d, color, to, blocked || next.value in b, now || next.value in fewer);
    }
  }

  /** Taking pieces off the board never loses a square a piece reached. */
  lemma RemovingBlockersLosesNothing(b: Placement, fewer: Placement, from: Square, piece: Piece, to: Square)
    requires fewer.Keys <= b.Keys
    requires ReachOf(b, from, piece, to) == Reaches
    ensures ReachOf(fewer, from, piece, to) == Reaches
  {
    if !StepsTo(from, piece, to) {
      var d :| d in Slides(piece.kind) && RayReach(b, from, d, piece.color, to) == Reaches;
      WalkLosesNothing(b, fewer, from, d, piece.color, to, false, false);
    }
  }

  // -------------------------------------------- zones and forced promotion

  function RanksFromLast(color: Color, s: Square): (n: nat)
    ensures n <= 8
  {
    if color.Black? then s.rank - 1 else 9 - s.rank
  }

  predicate InPromotionZone(color: Color, s: Square) {
    RanksFromLast(color, s) < 3
  }

  predicate MustPromote(kind: PieceKind, color: Color, to: Square) {
    match kind
    case Pawn | Lance => RanksFromLast(color, to) == 0
    case Knight => RanksFromLast(color, to) <= 1
    case _ => false
  }

  /** Some displacement of the piece's whole pattern lands on the board. */
  predicate CanEverMove(s: Square, piece: Piece) {
    (exists d :: d in Steps(piece.kind) && Step(s, d, piece.color).Some?)
    || (exists d :: d in Slides(piece.kind) && Step(s, d, piece.color).Some?)
  }

  lemma SidewaysStep(s: Square, color: Color)
    ensures Step(s, Delta(1, 0), color).Some? || Step(s, Delta(-1, 0), color).Some?
  {
    assert OnBoard(Coordinate(s.file + 1, s.rank)) || OnBoard(Coordinate(s.file - 1, s.rank));
  }

  lemma DiagonalStep(s: Square, color: Color)
    ensures Step(s, Delta(1, -1), color).Some? || Step(s, Delta(-1, -1), color).Some?
         || Step(s, Delta(1, 1), color).Some? || Step(s, Delta(-1, 1), color).Some?
  {
  }

  lemma ForwardSteps(s: Square, color: Color)
    ensures Step(s, Delta(0, -1), color).Some? <==> RanksFromLast(color, s) >= 1
    ensures Step(s, Delta(1, -2), color).Some? || Step(s, Delta(-1, -2), color).Some?
       <==> RanksFromLast(color, s) >= 2
  {
  }

  /** The forced-promotion table is exactly the set of squares from which the
      whole movement pattern lies off the board. */
  lemma ForcedPromotionIsADeadSquare(kind: PieceKind, color: Color, to: Square)
    ensures MustPromote(kind, color, to) <==> !CanEverMove(to, Piece(kind, color))
  {
    match kind {
      case Pawn =>
        ForwardSteps(to, color);
        assert Steps(kind)[0] == Delta(0, -1);
      case Lance =>
        ForwardSteps(to, color);
        assert Slides(kind)[0] == Delta(0, -1);
      case Knight =>
        ForwardSteps(to, color);
        assert Steps(kind)[0] == Delta(1, -2) && Steps(kind)[1] == Delta(-1, -2);
      case Silver =>
        DiagonalStep(to, color);
        assert Steps(kind)[1] == Delta(1, -1) && Steps(kind)[2] == Delta(-1, -1);
        assert Steps(kind)[3] == Delta(1, 1) && Steps(kind)[4] == Delta(-1, 1);
      case Bishop | PromotedBishop =>
        DiagonalStep(to, color);
        assert Slides(kind)[0] == Delta(1, -1) && Slides(kind)[1] == Delta(-1, -1);
        assert Slides(kind)[2] == Delta(1, 1) && Slides(kind)[3] == Delta(-1, 1);
      case Rook | PromotedRook =>
        SidewaysStep(to, color);
        assert Slides(kind)[2] == Delta(1, 0) && Slides(kind)[3] == Delta(-1, 0);
      case _ =>
        SidewaysStep(to, color);
        assert Steps(kind)[3] == Delta(1, 0) && Steps(kind)[4] == Delta(-1, 0);
    }
  }
}
