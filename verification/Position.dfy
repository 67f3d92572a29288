/** Positions and the values they are built from (`src/game/position.rs`).
    Everything here is a value; the in-place form is in `PositionStore`. */
module Position {
  import opened Wrappers

  datatype Color = Black | White {
    function Opponent(): (c: Color) {
      if Black? then White else Black
    }

    /** Where an array with one entry a side keeps this side's. */
    function Index(): (i: nat)
      ensures i < 2
    {
      if Black? then 0 else 1
    }
  }

  datatype Coordinate = Coordinate(file: int, rank: int)

  predicate OnBoard(c: Coordinate) {
    1 <= c.file <= 9 && 1 <= c.rank <= 9
  }

  /** The 81 valid squares. */
  type Square = c: Coordinate | OnBoard(c) witness Coordinate(1, 1)

  /** `Square::new` over the `u8` arguments it receives. */
  function NewSquare(file: int, rank: int): (s: Option<Square>) {
    if OnBoard(Coordinate(file, rank)) then Some(Coordinate(file, rank)) else None
  }

  datatype PieceKind =
    | King | Rook | Bishop | Gold | Silver | Knight | Lance | Pawn
    | PromotedRook | PromotedBishop | PromotedSilver
    | PromotedKnight | PromotedLance | PromotedPawn
  {
    function Promoted(): (k: Option<PieceKind>) {
      match this
      case Rook => Some(PromotedRook)
      case Bishop => Some(PromotedBishop)
      case Silver => Some(PromotedSilver)
      case Knight => Some(PromotedKnight)
      case Lance => Some(PromotedLance)
      case Pawn => Some(PromotedPawn)
      case _ => None
    }

    function Base(): (k: Option<PieceKind>) {
      match this
      case PromotedRook => Some(Rook)
      case PromotedBishop => Some(Bishop)
      case PromotedSilver => Some(Silver)
      case PromotedKnight => Some(Knight)
      case PromotedLance => Some(Lance)
      case PromotedPawn => Some(Pawn)
      case _ => None
    }
  }

  datatype Piece = Piece(kind: PieceKind, color: Color)

  datatype HandKind = HRook | HBishop | HGold | HSilver | HKnight | HLance | HPawn {
    function ToPieceKind(): (k: PieceKind) {
      match this
      case HRook => Rook
      case HBishop => Bishop
      case HGold => Gold
      case HSilver => Silver
      case HKnight => Knight
      case HLance => Lance
      case HPawn => Pawn
    }

    function Index(): (i: nat)
      ensures i < 7
    {
      match this
      case HRook => 0
      case HBishop => 1
      case HGold => 2
      case HSilver => 3
      case HKnight => 4
      case HLance => 5
      case HPawn => 6
    }
  }

  /** Every hand kind, in the fixed order of its index. */
  const HAND_KINDS: seq<HandKind> := [HRook, HBishop, HGold, HSilver, HKnight, HLance, HPawn]

  function FromPieceKind(kind: PieceKind): (h: Option<HandKind>) {
    match kind
    case Rook => Some(HRook)
    case Bishop => Some(HBishop)
    case Gold => Some(HGold)
    case Silver => Some(HSilver)
    case Knight => Some(HKnight)
    case Lance => Some(HLance)
    case Pawn => Some(HPawn)
    case _ => None
  }

  /** What a captured piece enters a hand as: its base kind, a King as nothing. */
  function HeldAs(kind: PieceKind): (h: Option<HandKind>) {
    FromPieceKind(if kind.Base().Some? then kind.Base().value else kind)
  }

  /** One side's captured pieces: seven `u8` counters. */
  type Hand = h: seq<int> | |h| == 7 && forall i :: 0 <= i < 7 ==> 0 <= h[i] <= 255
    witness [0, 0, 0, 0, 0, 0, 0]

  const EMPTY_HAND: Hand := [0, 0, 0, 0, 0, 0, 0]

  function CountOf(hand: Hand, kind: HandKind): (n: int) {
    hand[kind.Index()]
  }

  /** `saturating_add(1)` on one counter. */
  function Added(hand: Hand, kind: HandKind): (h: Hand) {
    var n := hand[kind.Index()];
    hand[kind.Index() := if n == 255 then 255 else n + 1]
  }

  /** `checked_sub(1)` on one counter: `None` for an empty one. */
  function Removed(hand: Hand, kind: HandKind): (h: Option<Hand>) {
    var n := hand[kind.Index()];
    if n == 0 then None else Some(hand[kind.Index() := n - 1])
  }

  /** The pieces on the board; an absent square is an empty one. */
  type Placement = map<Square, Piece>

  /** A position: board, both hands, side to move, and nothing else. */
  datatype Position = Position(board: Placement, black: Hand, white: Hand, turn: Color) {
    function PieceAt(s: Square): (p: Option<Piece>) {
      if s in board then Some(board[s]) else None
    }

    function HandOf(c: Color): (h: Hand) {
      if c.Black? then black else white
    }
  }

  /** Places a piece on a square, or empties it. */
  function Placed(b: Placement, s: Square, p: Option<Piece>): (r: Placement) {
    if p.Some? then b[s := p.value] else b - {s}
  }

  /** A position with one hand replaced. */
  function WithHand(p: Position, c: Color, h: Hand): (r: Position) {
    if c.Black? then p.(black := h) else p.(white := h)
  }

  datatype Move =
    | BoardMove(from: Square, to: Square, promote: bool)
    | Drop(piece: HandKind, to: Square)

  // ---------------------------------------------------------------- squares

  /** The `i`-th square, file-major: the order of `squares()`. */
  function SquareAt(i: nat): (s: Square)
    requires i < 81
  {
    Coordinate(i / 9 + 1, i % 9 + 1)
  }

  function IndexOf(s: Square): (i: nat)
    ensures i < 81 && SquareAt(i) == s
  {
    9 * (s.file - 1) + (s.rank - 1)
  }

  /** No square is skipped or visited twice by the file-major order. */
  lemma SquareOrderIsABijection(i: nat)
    requires i < 81
    ensures IndexOf(SquareAt(i)) == i
  {
  }

  function AllSquares(): (all: set<Square>)
    ensures forall s: Square :: s in all
  {
    set file, rank | 1 <= file <= 9 && 1 <= rank <= 9 :: Coordinate(file, rank)
  }

  // ----------------------------------------------------------------- hirate

  /** The back rank from file 1 to file 9, the same for both sides. */
  function BackRank(file: int): (k: PieceKind)
    requires 1 <= file <= 9
  {
    if file == 5 then King
    else if file == 4 || file == 6 then Gold
    else if file == 3 || file == 7 then Silver
    else if file == 2 || file == 8 then Knight
    else Lance
  }

  /** What the even starting position holds on each square. */
  function HirateAt(s: Square): (p: Option<Piece>) {
    if s.rank == 9 then Some(Piece(BackRank(s.file), Black))
    else if s.rank == 1 then Some(Piece(BackRank(s.file), White))
    else if s.rank == 7 then Some(Piece(Pawn, Black))
    else if s.rank == 3 then Some(Piece(Pawn, White))
    else if s == Coordinate(2, 8) then Some(Piece(Rook, Black))
    else if s == Coordinate(8, 8) then Some(Piece(Bishop, Black))
    else if s == Coordinate(8, 2) then Some(Piece(Rook, White))
    else if s == Coordinate(2, 2) then Some(Piece(Bishop, White))
    else None
  }

  function HiratePosition(): (p: Position)
    ensures forall s: Square :: p.PieceAt(s) == HirateAt(s)
  {
    Position(map s | s in AllSquares() && HirateAt(s).Some? :: HirateAt(s).value,
             EMPTY_HAND, EMPTY_HAND, Black)
  }

  /** A captured piece can always be dropped again as what it became: a hand
      kind and the board kind it becomes determine each other, and every
      promoted kind reverts to the kind it promotes from. */
  lemma KindConversionsInvert(kind: PieceKind, held: HandKind)
    ensures FromPieceKind(held.ToPieceKind()) == Some(held) == HeldAs(held.ToPieceKind())
    ensures HAND_KINDS[held.Index()] == held
    ensures kind.Promoted().Some? ==> kind.Promoted().value.Base() == Some(kind)
    ensures kind.Base().Some? ==> kind.Base().value.Promoted() == Some(kind)
    ensures kind.Promoted().Some? ==> HeldAs(kind.Promoted().value) == HeldAs(kind)
    ensures HeldAs(kind).None? <==> kind == King
  {
  }

  /** Each kind's partners by name: what promotes to what and what cannot, and
      what is held as what, in the order hands are written. */
  lemma KindsByName(kind: PieceKind)
    ensures kind.Promoted().Some? <==> kind in {Rook, Bishop, Silver, Knight, Lance, Pawn}
    ensures Rook.Promoted() == Some(PromotedRook) && Bishop.Promoted() == Some(PromotedBishop)
    ensures Silver.Promoted() == Some(PromotedSilver) && Knight.Promoted() == Some(PromotedKnight)
    ensures Lance.Promoted() == Some(PromotedLance) && Pawn.Promoted() == Some(PromotedPawn)
    ensures kind.Base().Some? <==> kind !in {King, Gold} && kind.Promoted().None?
    ensures |HAND_KINDS| == 7
    ensures forall i :: 0 <= i < 7 ==>
      HAND_KINDS[i].ToPieceKind() == [Rook, Bishop, Gold, Silver, Knight, Lance, Pawn][i]
  {
  }

  /** A counter gains one, up to 255, and loses one, if it has any; the other six
      stand. */
  lemma CountersMoveByOne(hand: Hand, kind: HandKind, other: HandKind)
    ensures CountOf(Added(hand, kind), kind) == if CountOf(hand, kind) < 255 then CountOf(hand, kind) + 1 else 255
    ensures Removed(hand, kind).None? <==> CountOf(hand, kind) == 0
    ensures Removed(hand, kind).Some? ==> CountOf(Removed(hand, kind).value, kind) == CountOf(hand, kind) - 1
    ensures other != kind ==>
      && CountOf(Added(hand, kind), other) == CountOf(hand, other)
      && (Removed(hand, kind).Some? ==> CountOf(Removed(hand, kind).value, other) == CountOf(hand, other))
  {
  }

  // ------------------------------------------------ hirate, piece by piece

  /** How far a file lies from the middle one. */
  function FromTheMiddle(file: int): (n: nat) {
    if file >= 5 then file - 5 else 5 - file
  }

  /** Where each kind of a side starts, counted from its own side of the board:
      `rank` from its last rank on, `file` from its right. */
  predicate StartsAt(kind: PieceKind, rank: int, file: int) {
    match kind
    case King => rank == 1 && FromTheMiddle(file) == 0
    case Gold => rank == 1 && FromTheMiddle(file) == 1
    case Silver => rank == 1 && FromTheMiddle(file) == 2
    case Knight => rank == 1 && FromTheMiddle(file) == 3
    case Lance => rank == 1 && FromTheMiddle(file) == 4
    case Rook => rank == 2 && file == 2
    case Bishop => rank == 2 && file == 8
    case Pawn => rank == 3
    case _ => false
  }

  /** The even starting position: every kind of either side on just the squares
      it starts on, nothing held, Black to move. */
  lemma TheStartingPosition(s: Square, kind: PieceKind, color: Color, held: HandKind)
    ensures var p := HiratePosition();
            && (p.PieceAt(s) == Some(Piece(kind, color))
                <==> StartsAt(kind, if color.Black? then 10 - s.rank else s.rank,
                              if color.Black? then s.file else 10 - s.file))
            && CountOf(p.HandOf(color), held) == 0
            && p.turn == Black
  {
    assert HiratePosition().PieceAt(s) == HirateAt(s);
    HirateHoldsNothing();
    hide HiratePosition;
  }

  lemma HirateHoldsNothing()
    ensures var p := HiratePosition(); p.black == p.white == EMPTY_HAND && p.turn == Black
  {
  }
}
