/** `Position` as the source holds it: arrays updated in place. */
module PositionStore {
  import opened Wrappers
  import opened Position

  function PieceOn(p: Position, file: int, rank: int): (r: Option<Piece>) {
    if OnBoard(Coordinate(file, rank)) then p.PieceAt(Coordinate(file, rank)) else None
  }

  function CountIn(p: Position, side: int, kind: int): (n: int)
    ensures 0 <= n <= 255
  {
    if 0 <= kind < 7 then if side == 0 then p.black[kind] else p.white[kind] else 0
  }

  class Store {
    /** Rank first, then file. */
    const board: array2<Option<Piece>>
    /** Side first, then hand kind. */
    const counts: array2<int>
    var turn: Color

    /** The position these arrays hold. */
    ghost var contents: Position

    ghost predicate Valid()
      reads this, board, counts
    {
      && board.Length0 == board.Length1 == 9
      && counts.Length0 == 2 && counts.Length1 == 7
      && ShowsBoard(contents.board)
      && ShowsHands(contents.black, contents.white)
      && turn == contents.turn
    }

    /** The array reads, square by square, as the given board. */
    ghost predicate ShowsBoard(b: Placement)
      requires board.Length0 == board.Length1 == 9
      reads board
    {
      forall s: Square :: board[s.rank - 1, s.file - 1] == if s in b then Some(b[s]) else None
    }

    ghost predicate ShowsHands(black: Hand, white: Hand)
      requires counts.Length0 == 2 && counts.Length1 == 7
      reads counts
    {
      forall k :: 0 <= k < 7 ==> counts[0, k] == black[k] && counts[1, k] == white[k]
    }

    /** `Position::clone`. */
    constructor Clone(p: Position)
      ensures Valid() && fresh(board) && fresh(counts) && contents == p
    {
      board := new Option<Piece>[9, 9]((r, f) => PieceOn(p, f + 1, r + 1));
      counts := new int[2, 7]((c, k) => CountIn(p, c, k));
      turn := p.turn;
      contents := p;
      new;
      forall s: Square ensures board[s.rank - 1, s.file - 1] == p.PieceAt(s) {
        assert PieceOn(p, s.file, s.rank) == p.PieceAt(s);
      }
    }

    /** The held position as a value. */
    method Read() returns (p: Position)
      requires Valid()
      ensures p == contents
    {
      var placed: Placement :=
        map s | s in AllSquares() && board[s.rank - 1, s.file - 1].Some? :: board[s.rank - 1, s.file - 1].value;
      assert placed == contents.board;
      var black := [counts[0, 0], counts[0, 1], counts[0, 2], counts[0, 3], counts[0, 4], counts[0, 5], counts[0, 6]];
      var white := [counts[1, 0], counts[1, 1], counts[1, 2], counts[1, 3], counts[1, 4], counts[1, 5], counts[1, 6]];
      assert black == contents.black && white == contents.white;
      return Position(placed, black, white, turn);
    }

    /** `set_piece_at`: that square changes and nothing else does. */
    method SetPieceAt(s: Square, piece: Option<Piece>)
      requires Valid()
      modifies board, this`contents
      ensures Valid()
      ensures contents == old(contents).(board := Placed(old(contents).board, s, piece))
    {
      board[s.rank - 1, s.file - 1] := piece;
      contents := contents.(board := Placed(contents.board, s, piece));
    }

    method SetSideToMove(c: Color)
      requires Valid()
      modifies this`turn, this`contents
      ensures Valid() && contents == old(contents).(turn := c)
    {
      turn := c;
      contents := contents.(turn := c);
    }

    /** `hand_mut(c).add(kind)`: a saturating increment of one counter. */
    method AddToHand(c: Color, kind: HandKind)
      requires Valid()
      modifies counts, this`contents
      ensures Valid()
      ensures contents == WithHand(old(contents), c, Added(old(contents).HandOf(c), kind))
    {
      var n := counts[c.Index(), kind.Index()];
      counts[c.Index(), kind.Index()] := if n == 255 then 255 else n + 1;
      contents := WithHand(contents, c, Added(contents.HandOf(c), kind));
    }

    /** `hand_mut(c).remove(kind)`: an empty counter is reported, not changed. */
    method RemoveFromHand(c: Color, kind: HandKind) returns (removed: bool)
      requires Valid()
      modifies counts, this`contents
      ensures Valid()
      ensures removed <==> Removed(old(contents).HandOf(c), kind).Some?
      ensures contents == if removed
                          then WithHand(old(contents), c, Removed(old(contents).HandOf(c), kind).value)
                          else old(contents)
    {
      var n := counts[c.Index(), kind.Index()];
      removed := n != 0;
      if removed {
        counts[c.Index(), kind.Index()] := n - 1;
        contents := WithHand(contents, c, Removed(contents.HandOf(c), kind).value);
      }
    }

    /** `place`, for the table of the starting position. */
    method Place(file: int, rank: int, color: Color, kind: PieceKind)
      requires Valid() && OnBoard(Coordinate(file, rank))
      modifies board, this`contents
      ensures Valid()
      ensures contents == old(contents).(board := old(contents).board[Coordinate(file, rank) := Piece(kind, color)])
    {
      SetPieceAt(Coordinate(file, rank), Some(Piece(kind, color)));
    }

    /** `hirate`, from an emptied board. */
    constructor Hirate()
      ensures Valid() && fresh(board) && fresh(counts)
      ensures contents == HiratePosition()
    {
      board := new Option<Piece>[9, 9]((_, _) => None);
      counts := new int[2, 7]((_, _) => 0);
      turn := Black;
      contents := Position(map[], EMPTY_HAND, EMPTY_HAND, Black);
      new;
      PlaceRanks();
      Place(2, 8, Black, Rook);
      Place(8, 8, Black, Bishop);
      Place(8, 2, White, Rook);
      Place(2, 2, White, Bishop);
      RanksAndMajorsAreHirate();
    }

    /** The two loops of `hirate`. */
    method PlaceRanks()
      requires Valid() && contents == Position(map[], EMPTY_HAND, EMPTY_HAND, Black)
      modifies board, this`contents
      ensures Valid() && contents == Position(RanksPlaced(9, 9), EMPTY_HAND, EMPTY_HAND, Black)
    {
      var backRank := [Lance, Knight, Silver, Gold, King, Gold, Silver, Knight, Lance];
      assert forall i :: 0 <= i < 9 ==> backRank[i] == BackRank(i + 1);
      hide RanksPlaced, BackRank;
      NoRanksPlaced();
      for offset := 0 to 9
        invariant Valid() && contents == Position(RanksPlaced(offset, 0), EMPTY_HAND, EMPTY_HAND, Black)
      {
        Place(offset + 1, 9, Black, backRank[offset]);
        Place(offset + 1, 1, White, backRank[offset]);
        BackRanksGrow(offset);
      }
      for file := 1 to 10
        invariant Valid() && contents == Position(RanksPlaced(9, file - 1), EMPTY_HAND, EMPTY_HAND, Black)
      {
        Place(file, 7, Black, Pawn);
        Place(file, 3, White, Pawn);
        PawnRanksGrow(file);
      }
    }
  }

  /** The back ranks of the first `backs` files and the pawns of the first `pawns`. */
  function RanksPlaced(backs: int, pawns: int): (b: Placement) {
    map s: Square | s in AllSquares() && (if s.rank == 9 || s.rank == 1 then s.file <= backs
                                          else (s.rank == 7 || s.rank == 3) && s.file <= pawns)
      :: HirateAt(s).value
  }

  lemma NoRanksPlaced()
    ensures RanksPlaced(0, 0) == map[]
  {
  }

  lemma BackRanksGrow(done: int)
    requires 0 <= done < 9
    ensures RanksPlaced(done, 0)[Coordinate(done + 1, 9) := Piece(BackRank(done + 1), Black)]
                                [Coordinate(done + 1, 1) := Piece(BackRank(done + 1), White)]
         == RanksPlaced(done + 1, 0)
  {
  }

  lemma PawnRanksGrow(file: int)
    requires 1 <= file <= 9
    ensures RanksPlaced(9, file - 1)[Coordinate(file, 7) := Piece(Pawn, Black)]
                                    [Coordinate(file, 3) := Piece(Pawn, White)]
         == RanksPlaced(9, file)
  {
  }

  lemma RanksAndMajorsAreHirate()
    ensures RanksPlaced(9, 9)[Coordinate(2, 8) := Piece(Rook, Black)][Coordinate(8, 8) := Piece(Bishop, Black)]
                             [Coordinate(8, 2) := Piece(Rook, White)][Coordinate(2, 2) := Piece(Bishop, White)]
         == HiratePosition().board
  {
  }
}
