/** Pawns dropped between a king and the piece that checks it: such a drop never
    mates without leaving the side that drops it another way out. */
module Interposition {
  import opened Wrappers
  import opened Position
  import opened Movement
  import opened Legality

  // ------------------------------------------------------------------ lines

  /** `n` unit steps along one coordinate. */
  function Times(n: int, u: int): (r: int) {
    if u == 1 then n else if u == -1 then -n else 0
  }

  predicate IsUnit(u: Delta) {
    -1 <= u.file <= 1 && -1 <= u.rank <= 1 && (u.file != 0 || u.rank != 0)
  }

  function Shifted(s: Coordinate, u: Delta, n: int): (c: Coordinate) {
    Coordinate(s.file + Times(n, u.file), s.rank + Times(n, u.rank))
  }

  lemma AlongIsShifted(s: Coordinate, d: Direction, color: Color, n: nat)
    ensures IsUnit(Oriented(d, color))
    ensures Along(s, d, color, n) == Shifted(s, Oriented(d, color), n)
  {
    Scaled(n, Oriented(d, color).file);
    Scaled(n, Oriented(d, color).rank);
  }

  /** `mid` and then `far` lie on one line from `near`, `m` and `n` steps away. */
  predicate InLine(near: Coordinate, mid: Coordinate, far: Coordinate, u: Delta, m: int, n: int) {
    IsUnit(u) && 1 <= m < n && Shifted(near, u, m) == mid && Shifted(near, u, n) == far
  }

  /** A checker `s`, the square `p` between it and the king `w`, the other king
      `k` next to `p`, and a pinner `r` behind `s`: then `s` is next to both. */
  lemma PinnedCheckerIsNear(
      s: Coordinate, p: Coordinate, w: Coordinate, k: Coordinate, r: Coordinate,
      u: Delta, m: int, n: int, v: Delta, a: int, b: int)
    requires InLine(s, p, w, u, m, n) && InLine(r, s, k, v, a, b)
    requires k.file == p.file && (k.rank == p.rank + 1 || k.rank == p.rank - 1)
    requires forall i :: 1 <= i <= n ==> Shifted(s, u, i) != k
    ensures m == 1 && b == a + 1 && u.file == v.file && u.file != 0
  {
    assert Shifted(s, u, m + 1) != k;
    assert m > 1 ==> Shifted(s, u, m - 1) != k;
    assert Shifted(s, v, b - a) == k;
  }

  /** A pinner so placed is itself pinned to the checked king by nothing. */
  lemma PinnersAreFree(
      s: Coordinate, p: Coordinate, w: Coordinate, k: Coordinate, r: Coordinate, q: Coordinate,
      u: Delta, m: int, n: int, v: Delta, a: int, b: int, t: Delta, e: int, c: int)
    requires InLine(s, p, w, u, m, n) && InLine(r, s, k, v, a, b)
    requires k.file == p.file && (k.rank == p.rank + 1 || k.rank == p.rank - 1)
    requires forall i :: 1 <= i <= n ==> Shifted(s, u, i) != k
    ensures !InLine(q, r, w, t, e, c)
  {
    PinnedCheckerIsNear(s, p, w, k, r, u, m, n, v, a, b);
  }

  /** Two pieces that a third square screens from one target stand on one line,
      the nearer of them in the farther one's way. */
  lemma ScreenedTogether(
      s: Coordinate, q: Coordinate, p: Coordinate, w: Coordinate,
      u: Delta, m: int, n: int, t: Delta, e: int, c: int)
    requires InLine(s, p, w, u, m, n) && InLine(q, p, w, t, e, c) && s != q
    ensures (exists i :: 1 <= i < n && Shifted(s, u, i) == q) || (exists i :: 1 <= i < c && Shifted(q, t, i) == s)
  {
    assert Shifted(p, u, n - m) == w == Shifted(p, t, c - e);
    assert u == t && n - m == c - e;
    if n > c {
      assert Shifted(s, u, n - c) == q;
    } else if n < c {
      assert Shifted(q, t, c - n) == s;
    }
  }

  // ------------------------------------------------------- opened lines

  lemma {:induction false} FirstBlock(b: Placement, from: Square, d: Direction, color: Color, k: nat) returns (j: nat)
    requires !Clear(b, from, d, color, k)
    ensures 1 <= j < k && Along(from, d, color, j) in b && Clear(b, from, d, color, j)
  {
    j :| 1 <= j < k && Along(from, d, color, j) in b;
    if !Clear(b, from, d, color, j) {
      j := FirstBlock(b, from, d, color, j);
    }
  }

  /** A piece that reaches a square on one board and not on another slides there;
      on the other it reaches the first square in its way, which is empty on the
      one. */
  lemma LineOpened(b: Placement, c: Placement, from: Square, piece: Piece, to: Square)
      returns (u: Delta, m: int, n: int, at: Square)
    requires ReachOf(c, from, piece, to) == Reaches && ReachOf(b, from, piece, to) != Reaches
    ensures Slides(piece.kind) != [] && InLine(from, at, to, u, m, n)
    ensures at in b && at !in c
    ensures ReachOf(b, from, piece, at) == Reaches
    ensures forall i :: 1 <= i < n ==> Shifted(from, u, i) !in c
  {
    hide ReachOf, StepsTo;
    ReachIsGeometry(c, from, piece, to);
    ReachIsGeometry(b, from, piece, to);
    var d: Direction, k: nat :| d in Slides(piece.kind)
      && OnRay(from, d, piece.color, to, k) && Clear(c, from, d, piece.color, k);
    assert !Clear(b, from, d, piece.color, k);
    var j := FirstBlock(b, from, d, piece.color, k);
    u, m, n, at := Oriented(d, piece.color), j, k, Along(from, d, piece.color, j);
    assert OnRay(from, d, piece.color, at, j);
    ReachIsGeometry(b, from, piece, at);
    forall i: nat ensures Along(from, d, piece.color, i) == Shifted(from, u, i) {
      AlongIsShifted(from, d, piece.color, i);
    }
    AlongIsShifted(from, d, piece.color, j);
    hide Along, Shifted, Oriented;
    assert forall i :: 1 <= i < n ==> Shifted(from, u, i) == Along(from, d, piece.color, i);
  }

  // ------------------------------------------------------- moves that answer

  /** Some promotion flag lets a sliding piece arrive, as no king. */
  lemma SomeFlagArrives(piece: Piece, from: Square, to: Square) returns (promote: bool)
    requires Slides(piece.kind) != []
    ensures Arriving(piece, from, to, promote).Success? && Arriving(piece, from, to, promote).value != King
  {
    promote := MustPromote(piece.kind, piece.color, to);
  }

  /** A sliding piece takes an enemy piece it reaches, unless that leaves its own
      king in check; and then some enemy piece, where it stood before, reaches
      that king on the board left behind. */
  lemma SlidersCapture(p: Position, from: Square, to: Square)
      returns (promote: bool, next: Placement, attacker: Square)
    requires from in p.board && p.board[from].color == p.turn && Slides(p.board[from].kind) != []
    requires to in p.board && p.board[to].color == p.turn.Opponent()
    requires ReachOf(p.board, from, p.board[from], to) == Reaches
    requires KingSquare(p.board, p.turn).Some?
    ensures next.Keys == p.board.Keys - {from}
    ensures var mv := BoardMove(from, to, promote);
            ValidateSuspended(p, mv).Success?
            || (&& attacker in next && attacker in p.board && attacker != to && attacker != from
                && p.board[attacker].color == p.turn.Opponent()
                && ReachOf(next, attacker, p.board[attacker], KingSquare(p.board, p.turn).value) == Reaches)
  {
    promote := SomeFlagArrives(p.board[from], from, to);
    var arriving := Arriving(p.board[from], from, to, promote).value;
    var made := AfterBoardMove(p, p.turn, from, to, arriving);
    next := made.board;
    attacker := from;
    assert Made(p, BoardMove(from, to, promote)) == Success(made);
    assert forall s: Square :: IsKing(next, s, p.turn) == IsKing(p.board, s, p.turn);
    FirstKingAgrees(next, p.board, p.turn, 0);
    hide ReachOf, Made, FirstKing;
    if BoardInCheck(next, p.turn) {
      attacker :| attacker in next && Attacks(next, attacker, p.turn.Opponent(), KingSquare(next, p.turn).value);
    }
  }
}
