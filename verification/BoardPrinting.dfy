/** Board printing loses nothing (`src/csa/position_block.rs`, lines 118-123 and
    183-228): the written lines determine the position. */
module BoardPrinting {
  import opened Wrappers
  import opened Position
  import opened Notation
  import opened PositionBlock

  // ------------------------------------------------------------------- board

  lemma CellNamesItsPiece(a: Option<Piece>, b: Option<Piece>)
    requires Cell(a) == Cell(b)
    ensures a == b
  {
    assert Cell(a)[0] == Cell(b)[0] && Cell(a)[1] == Cell(b)[1] && Cell(a)[2] == Cell(b)[2];
    if a.Some? && b.Some? {
      LettersRoundTrip(a.value.kind);
      LettersRoundTrip(b.value.kind);
      assert LettersOf(a.value.kind)[0] == Cell(a)[1] && LettersOf(a.value.kind)[1] == Cell(a)[2];
      assert LettersOf(b.value.kind)[0] == Cell(b)[1] && LettersOf(b.value.kind)[1] == Cell(b)[2];
    }
  }

  lemma SplitAt(a: string, x: string, b: string, y: string)
    requires |a| == |b| && a + x == b + y
    ensures a == b && x == y
  {
    assert (a + x)[..|a|] == a && (b + y)[..|b|] == b;
    assert (a + x)[|a|..] == x && (b + y)[|b|..] == y;
  }

  lemma {:induction false} CellsNameTheRank(p: Position, q: Position, rank: int, file: int)
    requires 1 <= rank <= 9 && 0 <= file <= 9
    requires CellsFrom(p, rank, file) == CellsFrom(q, rank, file)
    ensures forall f :: 1 <= f <= file ==> p.PieceAt(Coordinate(f, rank)) == q.PieceAt(Coordinate(f, rank))
  {
    if file > 0 {
      var a, b := p.PieceAt(Coordinate(file, rank)), q.PieceAt(Coordinate(file, rank));
      SplitAt(Cell(a), CellsFrom(p, rank, file - 1), Cell(b), CellsFrom(q, rank, file - 1));
      CellNamesItsPiece(a, b);
      CellsNameTheRank(p, q, rank, file - 1);
    }
  }

  lemma {:induction false} RowsAt(p: Position, n: int, rank: int)
    requires 1 <= rank <= n <= 9
    ensures Rows(p, n)[rank - 1] == Row(p, rank)
  {
    if rank < n {
      RowsAt(p, n - 1, rank);
    }
  }

  lemma RowsNameTheBoard(p: Position, q: Position)
    requires Rows(p, 9) == Rows(q, 9)
    ensures p.board == q.board
  {
    forall s: Square ensures p.PieceAt(s) == q.PieceAt(s) {
      RowsAt(p, 9, s.rank);
      RowsAt(q, 9, s.rank);
      var header := ['P', DigitText(s.rank)];
      SplitAt(header, CellsFrom(p, s.rank, 9), header, CellsFrom(q, s.rank, 9));
      CellsNameTheRank(p, q, s.rank, 9);
      assert s == Coordinate(s.file, s.rank);
    }
    SameSquaresSameBoard(p, q);
  }

  lemma SameSquaresSameBoard(p: Position, q: Position)
    requires forall s: Square :: p.PieceAt(s) == q.PieceAt(s)
    ensures p.board == q.board
  {
    forall s: Square ensures s in p.board <==> s in q.board {
      assert p.PieceAt(s) == q.PieceAt(s);
    }
    assert p.board.Keys == q.board.Keys;
    forall s: Square | s in p.board ensures p.board[s] == q.board[s] {
      assert p.PieceAt(s) == q.PieceAt(s);
    }
  }

  // ------------------------------------------------------------------- hands

  /** What the tokens up to kind `k` say, read off the front of a hand line. */
  lemma {:induction false} TokensLength(kind: HandKind, n: int)
    ensures |Tokens(kind, n)| == if n > 0 then 4 * n else 0
  {
    if n > 0 {
      TokensLength(kind, n - 1);
    }
  }

  lemma {:induction false} TokenAt(kind: HandKind, n: int, i: int)
    requires 0 <= i < n
    ensures |Tokens(kind, n)| == 4 * n
    ensures Tokens(kind, n)[4 * i + 2] == LettersOf(kind.ToPieceKind())[0]
    ensures Tokens(kind, n)[4 * i + 3] == LettersOf(kind.ToPieceKind())[1]
  {
    TokensLength(kind, n);
    TokensLength(kind, n - 1);
    if i < n - 1 {
      TokenAt(kind, n - 1, i);
    }
  }

  /** The tokens of the first `k` kinds are each of one of those kinds. */
  lemma {:induction false} HandTokenAt(hand: Hand, k: nat, i: nat) returns (j: nat)
    requires k <= 7 && 4 * i < |HandTokens(hand, k)|
    ensures |HandTokens(hand, k)| % 4 == 0
    ensures j < k && 4 * i + 3 < |HandTokens(hand, k)|
    ensures HandTokens(hand, k)[4 * i + 2] == LettersOf(HAND_KINDS[j].ToPieceKind())[0]
    ensures HandTokens(hand, k)[4 * i + 3] == LettersOf(HAND_KINDS[j].ToPieceKind())[1]
  {
    var kind := HAND_KINDS[k - 1];
    var n := CountOf(hand, kind);
    var front := HandTokens(hand, k - 1);
    HandTokensLength(hand, k);
    HandTokensLength(hand, k - 1);
    TokensLength(kind, n);
    if 4 * i < |front| {
      j := HandTokenAt(hand, k - 1, i);
    } else {
      j := k - 1;
      var at := i - |front| / 4;
      assert 4 * at == 4 * i - |front|;
      TokenAt(kind, n, at);
    }
  }

  lemma {:induction false} HandTokensLength(hand: Hand, k: nat)
    requires k <= 7
    ensures |HandTokens(hand, k)| % 4 == 0
  {
    if k > 0 {
      HandTokensLength(hand, k - 1);
      TokensLength(HAND_KINDS[k - 1], CountOf(hand, HAND_KINDS[k - 1]));
    }
  }

  lemma DifferentKindsDifferentLetters(a: nat, b: nat)
    requires a < 7 && b < 7
    requires LettersOf(HAND_KINDS[a].ToPieceKind())[0] == LettersOf(HAND_KINDS[b].ToPieceKind())[0]
    requires LettersOf(HAND_KINDS[a].ToPieceKind())[1] == LettersOf(HAND_KINDS[b].ToPieceKind())[1]
    ensures a == b
  {
  }

  lemma HandTokensGrow(h: Hand, k: nat)
    requires 1 <= k <= 7
    ensures |HandTokens(h, k - 1)| % 4 == 0
    ensures |HandTokens(h, k)| == |HandTokens(h, k - 1)| + 4 * CountOf(h, HAND_KINDS[k - 1])
  {
    hide Tokens, LettersOf;
    HandTokensLength(h, k - 1);
    TokensLength(HAND_KINDS[k - 1], CountOf(h, HAND_KINDS[k - 1]));
  }

  /** A token of an earlier kind does not stand where the last kind's first does. */
  lemma KindsDoNotMix(g: Hand, h: Hand, k: nat, i: nat)
    requires 1 <= k <= 7 && CountOf(h, HAND_KINDS[k - 1]) > 0
    requires 4 * i == |HandTokens(h, k - 1)| < |HandTokens(g, k - 1)|
    ensures HandTokens(g, k) != HandTokens(h, k)
  {
    hide HandTokens, LettersOf, CountOf, HAND_KINDS;
    var j := EarlierKindStands(g, k, i);
    LastKindStands(h, k);
    if HandTokens(g, k) == HandTokens(h, k) {
      DifferentKindsDifferentLetters(j, k - 1);
    }
  }

  /** Equal tokens hold as many of the last kind: with fewer, a token of an
      earlier kind would stand where that kind's stands. */
  lemma LastKindCounts(g: Hand, h: Hand, k: nat)
    requires 1 <= k <= 7 && HandTokens(g, k) == HandTokens(h, k)
    ensures CountOf(g, HAND_KINDS[k - 1]) >= CountOf(h, HAND_KINDS[k - 1])
  {
    HandTokensGrow(g, k);
    HandTokensGrow(h, k);
    assert CountOf(g, HAND_KINDS[k - 1]) >= 0;
    hide HandTokens, CountOf, HAND_KINDS;
    if CountOf(g, HAND_KINDS[k - 1]) < CountOf(h, HAND_KINDS[k - 1]) {
      KindsDoNotMix(g, h, k, |HandTokens(h, k - 1)| / 4);
    }
  }

  lemma EarlierKindStands(g: Hand, k: nat, i: nat) returns (j: nat)
    requires 1 <= k <= 7 && 4 * i < |HandTokens(g, k - 1)|
    ensures j < k - 1 && 4 * i + 3 < |HandTokens(g, k)|
    ensures HandTokens(g, k)[4 * i + 2] == LettersOf(HAND_KINDS[j].ToPieceKind())[0]
    ensures HandTokens(g, k)[4 * i + 3] == LettersOf(HAND_KINDS[j].ToPieceKind())[1]
  {
    j := HandTokenAt(g, k - 1, i);
  }

  lemma LastKindStands(h: Hand, k: nat)
    requires 1 <= k <= 7 && CountOf(h, HAND_KINDS[k - 1]) > 0
    ensures var i := |HandTokens(h, k - 1)|;
            && i + 3 < |HandTokens(h, k)|
            && HandTokens(h, k)[i + 2] == LettersOf(HAND_KINDS[k - 1].ToPieceKind())[0]
            && HandTokens(h, k)[i + 3] == LettersOf(HAND_KINDS[k - 1].ToPieceKind())[1]
  {
    TokenAt(HAND_KINDS[k - 1], CountOf(h, HAND_KINDS[k - 1]), 0);
  }

  lemma {:induction false} TokensNameTheCounts(g: Hand, h: Hand, k: nat)
    requires k <= 7 && HandTokens(g, k) == HandTokens(h, k)
    ensures forall i :: 0 <= i < k ==> CountOf(g, HAND_KINDS[i]) == CountOf(h, HAND_KINDS[i])
  {
    if k > 0 {
      var kind := HAND_KINDS[k - 1];
      var m, n := CountOf(g, kind), CountOf(h, kind);
      LastKindCounts(g, h, k);
      LastKindCounts(h, g, k);
      SplitAt(HandTokens(g, k - 1), Tokens(kind, m), HandTokens(h, k - 1), Tokens(kind, n));
      TokensNameTheCounts(g, h, k - 1);
    }
  }

  lemma TokensNameTheHand(g: Hand, h: Hand)
    requires HandTokens(g, 7) == HandTokens(h, 7)
    ensures g == h
  {
    TokensNameTheCounts(g, h, 7);
    forall i | 0 <= i < 7 ensures g[i] == h[i] {
      assert HAND_KINDS[i].Index() == i;
      assert CountOf(g, HAND_KINDS[i]) == CountOf(h, HAND_KINDS[i]);
    }
  }

  lemma HandLineNamesTheHand(p: Position, q: Position, color: Color)
    requires HandLine(p, color) == HandLine(q, color)
    ensures p.HandOf(color) == q.HandOf(color)
  {
    var header := ['P', SignOf(color)];
    SplitAt(header, HandTokens(p.HandOf(color), 7), header, HandTokens(q.HandOf(color), 7));
    TokensNameTheHand(p.HandOf(color), q.HandOf(color));
  }

  /** Two hands none of which is written are both empty. */
  lemma UnwrittenHandsAreEmpty(p: Position, q: Position, color: Color)
    requires |HandLine(p, color)| <= 2 && |HandLine(q, color)| <= 2
    ensures HandLine(p, color) == HandLine(q, color)
  {
  }

  // ---------------------------------------------------------------- the lines

  /** What follows the rows: the hand lines that are written, and the turn. */
  function Tail(p: Position, hands: Hands): (lines: seq<string>) {
    HandLines(p, Black, hands) + HandLines(p, White, hands) + [[SignOf(p.turn)]]
  }

  /** A hand line says whose it is, and no turn line is as long. */
  lemma HeaderTells(p: Position, color: Color)
    ensures |HandLine(p, color)| >= 2 && HandLine(p, color)[1] == SignOf(color)
  {
  }

  lemma TailNamesTheHands(p: Position, q: Position, hands: Hands)
    requires Tail(p, hands) == Tail(q, hands)
    ensures HandLine(p, Black) == HandLine(q, Black) && HandLine(p, White) == HandLine(q, White)
    ensures p.turn == q.turn
  {
    HeaderTells(p, Black);
    HeaderTells(q, Black);
    HeaderTells(p, White);
    HeaderTells(q, White);
    var t, u := Tail(p, hands), Tail(q, hands);
    assert t[|t| - 1] == [SignOf(p.turn)] && u[|u| - 1] == [SignOf(q.turn)];
    assert [SignOf(p.turn)][0] == [SignOf(q.turn)][0];
    hide HandLine;
    assert HandLines(p, Black, hands) == [] <==> HandLines(q, Black, hands) == [] by {
      assert t[0] == u[0];
    }
    if HandLines(p, Black, hands) == [] {
      UnwrittenHandsAreEmpty(p, q, Black);
    } else {
      assert t[0] == HandLine(p, Black) && u[0] == HandLine(q, Black);
    }
    if HandLines(p, White, hands) == [] {
      UnwrittenHandsAreEmpty(p, q, White);
    } else {
      assert t[|t| - 2] == HandLine(p, White) && u[|u| - 2] == HandLine(q, White);
    }
  }

  /** Two positions written with the same lines are the same position, whether
      empty hands are written or not. */
  lemma PrintingLosesNothing(p: Position, q: Position, hands: Hands)
    requires WrittenPosition(p, hands) == WrittenPosition(q, hands)
    ensures p == q
  {
    var a, b := WrittenPosition(p, hands), WrittenPosition(q, hands);
    hide Row, HandLine, LettersOf;
    assert a == Rows(p, 9) + Tail(p, hands) && b == Rows(q, 9) + Tail(q, hands);
    hide HandLines;
    assert a[..9] == Rows(p, 9) && b[..9] == Rows(q, 9);
    assert a[9..] == Tail(p, hands) && b[9..] == Tail(q, hands);
    hide Rows, Tail, WrittenPosition, HandLine;
    RowsNameTheBoard(p, q);
    TailNamesTheHands(p, q, hands);
    HandLineNamesTheHand(p, q, Black);
    HandLineNamesTheHand(p, q, White);
  }
}
