/** What stands where in a printed position (`src/csa/position_block.rs`, lines
    183-228): the layout of the rows and of the hand lines, and the block that
    every buoy begins with, letter by letter. */
module PrintedLayout {
  import opened Wrappers
  import opened Position
  import opened Notation
  import opened StartSpec
  import opened PositionBlock
  import opened BoardPrinting

  // ------------------------------------------------------------------- rows

  lemma {:induction false} CellStands(p: Position, rank: int, file: int, f: int)
    requires 1 <= rank <= 9 && 1 <= f <= file <= 9
    ensures CellsFrom(p, rank, file)[3 * (file - f)..3 * (file - f) + 3] == Cell(p.PieceAt(Coordinate(f, rank)))
  {
    var rest := CellsFrom(p, rank, file - 1);
    var all := CellsFrom(p, rank, file);
    hide Cell;
    if f < file {
      CellStands(p, rank, file - 1, f);
      var at := 3 * (file - 1 - f);
      assert all[at + 3..at + 6] == rest[at..at + 3];
    }
  }

  /** The printed board: nine rows, each `P` and its rank and then nine cells of
      three characters, file 9 first and file 1 last; a cell is blank around an
      asterisk where the square is empty, and otherwise its piece's sign and
      letters. */
  lemma RowLayout(p: Position, s: Square)
    ensures |Rows(p, 9)| == 9
    ensures var row := Rows(p, 9)[s.rank - 1];
            var at := 2 + 3 * (9 - s.file);
            && |row| == 29 && row[0] == 'P' && row[1] as int == '0' as int + s.rank
            && row[at..at + 3] == if s in p.board
                                  then (if p.board[s].color.Black? then "+" else "-") + LettersOf(p.board[s].kind)
                                  else " * "
  {
    RowsAt(p, 9, s.rank);
    CellStands(p, s.rank, 9, s.file);
    var cells := CellsFrom(p, s.rank, 9);
    var row := Row(p, s.rank);
    var at := 3 * (9 - s.file);
    assert s == Coordinate(s.file, s.rank);
    hide CellsFrom, LettersOf;
    assert row[at + 2..at + 5] == cells[at..at + 3];
  }

  // ------------------------------------------------------------------- hands

  /** How many pieces of the first `k` kinds a hand holds. */
  function HeldBefore(hand: Hand, k: nat): (n: nat)
    requires k <= 7
  {
    if k == 0 then 0 else HeldBefore(hand, k - 1) + CountOf(hand, HAND_KINDS[k - 1])
  }

  lemma {:induction false} TokenText(kind: HandKind, n: int, i: int)
    requires 0 <= i < n
    ensures |Tokens(kind, n)| == 4 * n
    ensures Tokens(kind, n)[4 * i..4 * i + 4] == "00" + LettersOf(kind.ToPieceKind())
  {
    TokensLength(kind, n);
    TokensLength(kind, n - 1);
    var all, rest := Tokens(kind, n), Tokens(kind, n - 1);
    var token := "00" + LettersOf(kind.ToPieceKind());
    assert all == rest + token;
    hide Tokens, LettersOf;
    if i < n - 1 {
      TokenText(kind, n - 1, i);
      assert all[4 * i..4 * i + 4] == rest[4 * i..4 * i + 4];
    }
  }

  lemma {:induction false} HandTokensHold(hand: Hand, k: nat)
    requires k <= 7
    ensures |HandTokens(hand, k)| == 4 * HeldBefore(hand, k)
  {
    if k > 0 {
      HandTokensHold(hand, k - 1);
      TokensLength(HAND_KINDS[k - 1], CountOf(hand, HAND_KINDS[k - 1]));
    }
  }

  lemma {:induction false} HandTokenText(hand: Hand, k: nat, j: nat, i: nat)
    requires j < k <= 7 && HeldBefore(hand, j) <= i < HeldBefore(hand, j + 1)
    ensures |HandTokens(hand, k)| == 4 * HeldBefore(hand, k) && i < HeldBefore(hand, k)
    ensures HandTokens(hand, k)[4 * i..4 * i + 4] == "00" + LettersOf(HAND_KINDS[j].ToPieceKind())
  {
    HandTokensHold(hand, k);
    HandTokensHold(hand, k - 1);
    var all, front := HandTokens(hand, k), HandTokens(hand, k - 1);
    var last := Tokens(HAND_KINDS[k - 1], CountOf(hand, HAND_KINDS[k - 1]));
    assert all == front + last;
    hide HandTokens, LettersOf, Tokens;
    if j < k - 1 {
      HandTokenText(hand, k - 1, j, i);
      assert all[4 * i..4 * i + 4] == front[4 * i..4 * i + 4];
    } else {
      var at := i - HeldBefore(hand, j);
      TokenText(HAND_KINDS[j], CountOf(hand, HAND_KINDS[j]), at);
      assert all[4 * i..4 * i + 4] == last[4 * at..4 * at + 4];
    }
  }

  /** The token of each hand kind, in the order of a hand line. */
  const HAND_TOKENS: seq<string> := ["00HI", "00KA", "00KI", "00GI", "00KE", "00KY", "00FU"]

  lemma TokensByName(j: nat)
    requires j < 7
    ensures "00" + LettersOf(HAND_KINDS[j].ToPieceKind()) == HAND_TOKENS[j]
  {
  }

  /** A hand line: `P` and the side's sign, then one token of four characters for
      each piece held and nothing else, rooks first and pawns last. */
  lemma HandLineLayout(p: Position, color: Color, j: nat, i: nat)
    ensures var line := HandLine(p, color);
            && |line| == 2 + 4 * HeldBefore(p.HandOf(color), 7)
            && line[..2] == (if color.Black? then "P+" else "P-")
            && (j < 7 && HeldBefore(p.HandOf(color), j) <= i < HeldBefore(p.HandOf(color), j + 1) ==>
                  && 4 * i + 6 <= |line|
                  && line[4 * i + 2..4 * i + 6] == HAND_TOKENS[j])
  {
    var hand := p.HandOf(color);
    var line, tokens := HandLine(p, color), HandTokens(hand, 7);
    HandTokensHold(hand, 7);
    if j < 7 && HeldBefore(hand, j) <= i < HeldBefore(hand, j + 1) {
      hide HandTokens, LettersOf, HeldBefore, HAND_TOKENS;
      HandTokenText(hand, 7, j, i);
      TokensByName(j);
      assert line[4 * i + 2..4 * i + 6] == tokens[4 * i..4 * i + 4];
    }
  }

  /** The lines in their order: the rows, Black's hand and White's where they are
      written, and the side to move. */
  lemma LinesInOrder(p: Position, hands: Hands)
    ensures WrittenPosition(p, hands)
         == Rows(p, 9)
            + (if hands == Always || HeldBefore(p.black, 7) > 0 then [HandLine(p, Black)] else [])
            + (if hands == Always || HeldBefore(p.white, 7) > 0 then [HandLine(p, White)] else [])
            + [if p.turn.Black? then "+" else "-"]
  {
    HandLineLayout(p, Black, 7, 0);
    HandLineLayout(p, White, 7, 0);
    hide Rows, HandLine, HeldBefore;
  }

  // ------------------------------------------------------------ hirate's block

  /** The twelve lines of the even starting position. */
  const ROW_1 := "P1-KY-KE-GI-KI-OU-KI-GI-KE-KY"
  const ROW_2 := "P2 * -HI *  *  *  *  * -KA * "
  const ROW_3 := "P3-FU-FU-FU-FU-FU-FU-FU-FU-FU"
  const ROW_4 := "P4 *  *  *  *  *  *  *  *  * "
  const ROW_5 := "P5 *  *  *  *  *  *  *  *  * "
  const ROW_6 := "P6 *  *  *  *  *  *  *  *  * "
  const ROW_7 := "P7+FU+FU+FU+FU+FU+FU+FU+FU+FU"
  const ROW_8 := "P8 * +KA *  *  *  *  * +HI * "
  const ROW_9 := "P9+KY+KE+GI+KI+OU+KI+GI+KE+KY"

  const HIRATE_ROWS: seq<string> := [ROW_1, ROW_2, ROW_3, ROW_4, ROW_5, ROW_6, ROW_7, ROW_8, ROW_9]
  const HIRATE_BLOCK: seq<string> := HIRATE_ROWS + ["P+", "P-", "+"]

  /** The cell of a printed row where the square on this file stands. */
  predicate CellIs(line: string, file: int, cell: string) {
    && |line| == 29 && |cell| == 3 && 1 <= file <= 9
    && line[29 - 3 * file] == cell[0] && line[30 - 3 * file] == cell[1] && line[31 - 3 * file] == cell[2]
  }

  function HirateCell(rank: int, file: int): (cell: string)
    requires 1 <= rank <= 9 && 1 <= file <= 9
  {
    Cell(HirateAt(Coordinate(file, rank)))
  }

  /** A line is hirate's row if its head and its nine cells are. */
  lemma SameCellsSameLine(a: string, b: string, rank: int)
    requires 1 <= rank <= 9 && |a| == |b| == 29 && a[0] == b[0] && a[1] == b[1]
    requires forall f :: 1 <= f <= 9 ==> CellIs(a, f, HirateCell(rank, f)) && CellIs(b, f, HirateCell(rank, f))
    ensures a == b
  {
    hide HirateCell;
    forall i | 0 <= i < 29 ensures a[i] == b[i] {
      if i >= 2 {
        var f := 9 - (i - 2) / 3;
        assert CellIs(a, f, HirateCell(rank, f)) && CellIs(b, f, HirateCell(rank, f));
      }
    }
  }

  lemma RowIsItsCells(rank: int, line: string)
    requires 1 <= rank <= 9 && |line| == 29 && line[0] == 'P' && line[1] == DigitText(rank)
    requires forall f :: 1 <= f <= 9 ==> CellIs(line, f, HirateCell(rank, f))
    ensures Row(HiratePosition(), rank) == line
  {
    var p := HiratePosition();
    var row := Row(p, rank);
    assert forall s: Square :: p.PieceAt(s) == HirateAt(s);
    hide HiratePosition, CellIs, Cell, HirateAt, CellsFrom;
    forall f | 1 <= f <= 9 ensures CellIs(row, f, HirateCell(rank, f)) {
      CellInRow(p, rank, f);
    }
    RowHead(p, rank);
    hide Row, HirateCell;
    SameCellsSameLine(row, line, rank);
  }

  lemma RowHead(p: Position, rank: int)
    requires 1 <= rank <= 9
    ensures |Row(p, rank)| == 29 && Row(p, rank)[0] == 'P' && Row(p, rank)[1] == DigitText(rank)
  {
  }

  lemma CellInRow(p: Position, rank: int, file: int)
    requires 1 <= rank <= 9 && 1 <= file <= 9
    ensures CellIs(Row(p, rank), file, Cell(p.PieceAt(Coordinate(file, rank))))
  {
    CellStands(p, rank, 9, file);
    var cells, row := CellsFrom(p, rank, 9), Row(p, rank);
    var at := 3 * (9 - file);
    var cell := cells[at..at + 3];
    hide CellsFrom, Cell;
    assert row[at + 2] == cell[0] && row[at + 3] == cell[1] && row[at + 4] == cell[2];
  }

  lemma Row1Cells()
    ensures |ROW_1| == 29 && ROW_1[0] == 'P' && ROW_1[1] == DigitText(1)
    ensures forall f :: 1 <= f <= 9 ==> CellIs(ROW_1, f, HirateCell(1, f))
  {
  }

  lemma Row2Cells()
    ensures |ROW_2| == 29 && ROW_2[0] == 'P' && ROW_2[1] == DigitText(2)
    ensures forall f :: 1 <= f <= 9 ==> CellIs(ROW_2, f, HirateCell(2, f))
  {
  }

  lemma Row3Cells()
    ensures |ROW_3| == 29 && ROW_3[0] == 'P' && ROW_3[1] == DigitText(3)
    ensures forall f :: 1 <= f <= 9 ==> CellIs(ROW_3, f, HirateCell(3, f))
  {
  }

  lemma Row4Cells()
    ensures |ROW_4| == 29 && ROW_4[0] == 'P' && ROW_4[1] == DigitText(4)
    ensures forall f :: 1 <= f <= 9 ==> CellIs(ROW_4, f, HirateCell(4, f))
  {
  }

  lemma Row5Cells()
    ensures |ROW_5| == 29 && ROW_5[0] == 'P' && ROW_5[1] == DigitText(5)
    ensures forall f :: 1 <= f <= 9 ==> CellIs(ROW_5, f, HirateCell(5, f))
  {
  }

  lemma Row6Cells()
    ensures |ROW_6| == 29 && ROW_6[0] == 'P' && ROW_6[1] == DigitText(6)
    ensures forall f :: 1 <= f <= 9 ==> CellIs(ROW_6, f, HirateCell(6, f))
  {
  }

  lemma Row7Cells()
    ensures |ROW_7| == 29 && ROW_7[0] == 'P' && ROW_7[1] == DigitText(7)
    ensures forall f :: 1 <= f <= 9 ==> CellIs(ROW_7, f, HirateCell(7, f))
  {
  }

  lemma Row8Cells()
    ensures |ROW_8| == 29 && ROW_8[0] == 'P' && ROW_8[1] == DigitText(8)
    ensures forall f :: 1 <= f <= 9 ==> CellIs(ROW_8, f, HirateCell(8, f))
  {
  }

  lemma Row9Cells()
    ensures |ROW_9| == 29 && ROW_9[0] == 'P' && ROW_9[1] == DigitText(9)
    ensures forall f :: 1 <= f <= 9 ==> CellIs(ROW_9, f, HirateCell(9, f))
  {
  }

  lemma HirateRow(rank: int)
    requires 1 <= rank <= 9
    ensures Row(HiratePosition(), rank) == HIRATE_ROWS[rank - 1]
  {
    Row1Cells();
    Row2Cells();
    Row3Cells();
    Row4Cells();
    Row5Cells();
    Row6Cells();
    Row7Cells();
    Row8Cells();
    Row9Cells();
    hide Row, HiratePosition, CellIs, HirateCell, ROW_1, ROW_2, ROW_3, ROW_4, ROW_5, ROW_6, ROW_7, ROW_8, ROW_9;
    RowIsItsCells(rank, HIRATE_ROWS[rank - 1]);
  }

  lemma HirateRows()
    ensures Rows(HiratePosition(), 9) == HIRATE_ROWS
  {
    assert |HIRATE_ROWS| == 9;
    hide HiratePosition, Row, HIRATE_ROWS;
    forall i | 0 <= i < 9 ensures Rows(HiratePosition(), 9)[i] == HIRATE_ROWS[i] {
      RowsAt(HiratePosition(), 9, i + 1);
      HirateRow(i + 1);
    }
    hide Rows;
  }

  /** Every buoy's block begins with hirate's twelve lines, and a record's diagram
      of it is those without the two hand lines. */
  lemma HirateIsPrinted(setup: seq<Move>)
    ensures WrittenPosition(HiratePosition(), Always) == HIRATE_BLOCK
    ensures Diagram(Buoy(setup)) == HIRATE_ROWS + ["+"]
  {
    hide HiratePosition, HIRATE_ROWS, Rows, HandLine, HeldBefore, WrittenPosition;
    var p := HiratePosition();
    HirateHoldsNothing();
    BareHands(p);
    NothingHeld();
    HirateRows();
    LinesInOrder(p, Always);
    LinesInOrder(p, WhenHeld);
  }

  lemma NothingHeld()
    ensures HeldBefore(EMPTY_HAND, 7) == 0
  {
  }

  lemma BareHands(p: Position)
    requires p.black == EMPTY_HAND && p.white == EMPTY_HAND
    ensures HandLine(p, Black) == "P+" && HandLine(p, White) == "P-"
  {
    NothingHeld();
    HandLineLayout(p, Black, 7, 0);
    HandLineLayout(p, White, 7, 0);
    hide HandLine;
  }
}
