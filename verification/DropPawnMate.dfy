/** The drop-pawn-mate rule: suspending it inside the reply search is exact
    (`src/game/legality.rs`, lines 222-261 and 361-398). */
module DropPawnMate {
  import opened Wrappers
  import opened Position
  import opened Movement
  import opened Legality
  import opened Interposition

  const PAWN_STEP := Delta(0, -1)

  /** The rule with its reply search carried `depth` levels down, instead of
      being suspended at the first: depth 0 has no rule at all. */
  ghost function ValidateDeep(p: Position, mv: Move, depth: nat): (r: Outcome)
    decreases depth, 0
  {
    var suspended := ValidateSuspended(p, mv);
    if depth > 0 && suspended.Success? && mv.Drop? && mv.piece == HPawn
       && InCheck(suspended.value, suspended.value.turn)
       && !HasReply(suspended.value, depth - 1)
    then Failure(DropPawnMate(mv.to))
    else suspended
  }

  ghost predicate HasReply(p: Position, depth: nat)
    decreases depth, 1
  {
    exists reply: Move :: ValidateDeep(p, reply, depth).Success?
  }

  /** A drop moves no king. */
  lemma DropKeepsKings(p: Position, mover: Color, kind: HandKind, to: Square, color: Color)
    requires ApplyDrop(p, mover, kind, to).Success?
    ensures KingSquare(AfterDrop(p, mover, kind, to).board, color) == KingSquare(p.board, color)
  {
    FirstKingAgrees(AfterDrop(p, mover, kind, to).board, p.board, color, 0);
  }

  lemma AttackSurvivesRemoval(b: Placement, fewer: Placement, from: Square, attacker: Color, target: Square)
    requires fewer.Keys <= b.Keys && from in fewer && from in b && fewer[from] == b[from]
    requires Attacks(b, from, attacker, target)
    ensures Attacks(fewer, from, attacker, target)
  {
    RemovingBlockersLosesNothing(b, fewer, from, b[from], target);
  }

  /** When a dropped pawn checks a king that was not in check, the pawn is next
      to the king and is its only attacker: a drop opens no line. */
  lemma OnlyTheDroppedPawnChecks(p: Position, to: Square)
    requires ApplyDrop(p, p.turn, HPawn, to).Success?
    requires !InCheck(p, p.turn.Opponent())
    requires InCheck(AfterDrop(p, p.turn, HPawn, to), p.turn.Opponent())
    ensures var next := AfterDrop(p, p.turn, HPawn, to);
            var king := KingSquare(next.board, next.turn);
            && king.Some?
            && Step(to, PAWN_STEP, p.turn) == king
            && forall from: Square :: Attacks(next.board, from, p.turn, king.value) <==> from == to
  {
    var next := AfterDrop(p, p.turn, HPawn, to);
    DropKeepsKings(p, p.turn, HPawn, to, next.turn);
    var king := KingSquare(next.board, next.turn).value;
    assert next.turn.Opponent() == p.turn;
    forall from: Square | Attacks(next.board, from, p.turn, king) ensures from == to {
      if from != to {
        AttackSurvivesRemoval(next.board, p.board, from, p.turn, king);
      }
    }
    assert next.board[to] == Piece(Pawn, p.turn);
  }

  /** With a pawn standing next to the king it checks, no drop is a reply: the
      drop can neither take the pawn nor stand between. */
  lemma NoDropAnswersAnAdjacentPawn(p: Position, pawn: Square, reply: Move)
    requires pawn in p.board && p.board[pawn] == Piece(Pawn, p.turn.Opponent())
    requires KingSquare(p.board, p.turn).Some?
    requires Step(pawn, PAWN_STEP, p.turn.Opponent()) == KingSquare(p.board, p.turn)
    requires reply.Drop?
    ensures ValidateSuspended(p, reply).Failure?
  {
    if ApplyDrop(p, p.turn, reply.piece, reply.to).Success? {
      var next := AfterDrop(p, p.turn, reply.piece, reply.to);
      DropKeepsKings(p, p.turn, reply.piece, reply.to, p.turn);
      assert PAWN_STEP == Steps(Pawn)[0];
      assert Attacks(next.board, pawn, p.turn.Opponent(), KingSquare(p.board, p.turn).value);
    }
  }

  /** After a checking pawn drop the rule has nothing left to decide: at every
      depth, every reply is judged as it is with the rule suspended. */
  lemma RepliesNeedNoRule(p: Position, to: Square, reply: Move, depth: nat)
    requires ApplyDrop(p, p.turn, HPawn, to).Success?
    requires !InCheck(p, p.turn.Opponent())
    requires InCheck(AfterDrop(p, p.turn, HPawn, to), p.turn.Opponent())
    ensures var next := AfterDrop(p, p.turn, HPawn, to);
            && ValidateDeep(next, reply, depth) == ValidateSuspended(next, reply)
            && ApplyMove(next, reply) == ValidateSuspended(next, reply)
  {
    var next := AfterDrop(p, p.turn, HPawn, to);
    assert next.turn == p.turn.Opponent() && to in next.board && next.board[to] == Piece(Pawn, p.turn);
    hide ValidateSuspended, ApplyDrop, AfterDrop, BoardInCheck, KingSquare, Step, HasReply, HasLegalMove;
    if reply.Drop? {
      OnlyTheDroppedPawnChecks(p, to);
      NoDropAnswersAnAdjacentPawn(next, to, reply);
    }
  }

  lemma SameJudgementSameReplies(p: Position, depth: nat)
    requires forall reply: Move :: ValidateDeep(p, reply, depth) == ValidateSuspended(p, reply)
    ensures HasReply(p, depth) <==> HasLegalMove(p)
  {
  }

  /** An accepted pawn drop leaves the position it makes. */
  lemma AcceptedDrop(p: Position, to: Square)
    requires ValidateSuspended(p, Drop(HPawn, to)).Success?
    ensures ApplyDrop(p, p.turn, HPawn, to).Success?
    ensures ValidateSuspended(p, Drop(HPawn, to)).value == AfterDrop(p, p.turn, HPawn, to)
    ensures var next := AfterDrop(p, p.turn, HPawn, to);
            && next.turn == p.turn.Opponent() && to !in p.board
            && next.board == p.board[to := Piece(Pawn, p.turn)]
  {
  }

  /** In play, where the waiting side is not in check, every move is judged alike
      however deep the reply search goes. */
  lemma SuspensionIsExactOutOfCheck(p: Position, mv: Move, depth: nat)
    requires !InCheck(p, p.turn.Opponent())
    requires depth >= 1
    ensures ValidateDeep(p, mv, depth) == ApplyMove(p, mv)
  {
    hide ValidateSuspended, BoardInCheck, AfterDrop, ApplyDrop;
    var suspended := ValidateSuspended(p, mv);
    if suspended.Success? && mv.Drop? && mv.piece == HPawn && InCheck(suspended.value, suspended.value.turn) {
      var next := suspended.value;
      AcceptedDrop(p, mv.to);
      forall reply: Move
        ensures ValidateDeep(next, reply, depth - 1) == ValidateSuspended(next, reply)
      {
        RepliesNeedNoRule(p, mv.to, reply, depth - 1);
      }
      SameJudgementSameReplies(next, depth - 1);
    }
  }

  // ------------------------------------- replies that themselves drop a pawn

  /** A pawn drop that answers a check stands between the checker and the king. */
  lemma DropsScreenCheckers(p: Position, to: Square, checker: Square) returns (u: Delta, m: int, n: int)
    requires ValidateSuspended(p, Drop(HPawn, to)).Success?
    requires KingSquare(p.board, p.turn).Some?
    requires Attacks(p.board, checker, p.turn.Opponent(), KingSquare(p.board, p.turn).value)
    ensures Slides(p.board[checker].kind) != []
    ensures InLine(checker, to, KingSquare(p.board, p.turn).value, u, m, n)
    ensures forall i :: 1 <= i < n ==> Shifted(checker, u, i) !in p.board
    ensures ReachOf(AfterDrop(p, p.turn, HPawn, to).board, checker, p.board[checker], to) == Reaches
  {
    var next := AfterDrop(p, p.turn, HPawn, to);
    var king := KingSquare(p.board, p.turn).value;
    DropKeepsKings(p, p.turn, HPawn, to, p.turn);
    hide ReachOf, KingSquare;
    assert checker != to && next.board[checker] == p.board[checker];
    assert !Attacks(next.board, checker, p.turn.Opponent(), king);
    var at: Square;
    u, m, n, at := LineOpened(next.board, p.board, checker, p.board[checker], king);
    assert at == to;
  }

  /** A drop between a checker and the king, itself mating the other king: the
      checker could have taken the dropped pawn but for an enemy slider that pins
      it. */
  lemma MatesNeedAPin(p: Position, to: Square, checker: Square) returns (r: Square, v: Delta, a: int, b: int)
    requires !InCheck(p, p.turn.Opponent()) && KingSquare(p.board, p.turn).Some?
    requires Attacks(p.board, checker, p.turn.Opponent(), KingSquare(p.board, p.turn).value)
    requires ValidateSuspended(p, Drop(HPawn, to)).Success?
    requires MatesByPawnDrop(Drop(HPawn, to), AfterDrop(p, p.turn, HPawn, to))
    ensures Step(to, PAWN_STEP, p.turn) == KingSquare(p.board, p.turn.Opponent())
    ensures KingSquare(p.board, p.turn.Opponent()).Some?
    ensures r in p.board && p.board[r].color == p.turn && Slides(p.board[r].kind) != []
    ensures ReachOf(p.board, r, p.board[r], checker) == Reaches
    ensures InLine(r, checker, KingSquare(p.board, p.turn.Opponent()).value, v, a, b)
  {
    AcceptedDrop(p, to);
    var next := AfterDrop(p, p.turn, HPawn, to);
    hide ReachOf, KingSquare, ValidateSuspended, InLine, AfterDrop, ApplyDrop;
    var u, m, n := DropsScreenCheckers(p, to, checker);
    OnlyTheDroppedPawnChecks(p, to);
    DropKeepsKings(p, p.turn, HPawn, to, next.turn);
    var king := KingSquare(p.board, next.turn).value;
    var promote, left: Placement;
    promote, left, r := SlidersCapture(next, checker, to);
    assert !ValidateSuspended(next, BoardMove(checker, to, promote)).Success?;
    assert !Attacks(p.board, r, p.turn, king);
    var at: Square;
    v, a, b, at := LineOpened(p.board, left, r, p.board[r], king);
    assert at == checker;
  }

  /** The dropped pawn's king stands clear of the checker's line. */
  lemma TheMatedKingIsOffTheLine(p: Position, to: Square, checker: Square, u: Delta, n: int)
    requires KingSquare(p.board, p.turn).Some? && KingSquare(p.board, p.turn.Opponent()).Some?
    requires Shifted(checker, u, n) == KingSquare(p.board, p.turn).value
    requires forall i :: 1 <= i < n ==> Shifted(checker, u, i) !in p.board
    ensures forall i :: 1 <= i <= n ==> Shifted(checker, u, i) != KingSquare(p.board, p.turn.Opponent()).value
  {
    KingSquareFinds(p.board, p.turn);
    KingSquareFinds(p.board, p.turn.Opponent());
    hide Shifted, KingSquare;
  }

  /** Whoever answers a check by a pawn drop that mates could have taken the
      checker instead: the pin that stops it from taking the pawn is by a piece
      that nothing pins in turn. */
  lemma MatingRepliesLeaveACapture(p: Position, to: Square) returns (reply: Move)
    requires !InCheck(p, p.turn.Opponent()) && InCheck(p, p.turn)
    requires ValidateSuspended(p, Drop(HPawn, to)).Success?
    requires MatesByPawnDrop(Drop(HPawn, to), AfterDrop(p, p.turn, HPawn, to))
    ensures reply.BoardMove? && ValidateSuspended(p, reply).Success?
    ensures reply.to in p.board && Attacks(p.board, reply.to, p.turn.Opponent(), KingSquare(p.board, p.turn).value)
  {
    var them := p.turn.Opponent();
    var king := KingSquare(p.board, p.turn).value;
    var s: Square :| s in p.board && Attacks(p.board, s, them, king);
    var u, m, n := DropsScreenCheckers(p, to, s);
    var r, v, a, b := MatesNeedAPin(p, to, s);
    var mated := KingSquare(p.board, them).value;
    assert mated.file == to.file && (mated.rank == to.rank + 1 || mated.rank == to.rank - 1);
    TheMatedKingIsOffTheLine(p, to, s, u, n);
    hide ReachOf, KingSquare, ValidateSuspended, InLine, Shifted, AfterDrop, BoardInCheck, MatesByPawnDrop, Step;
    var flag, left, q := SlidersCapture(p, r, s);
    reply := BoardMove(r, s, flag);
    if !ValidateSuspended(p, reply).Success? {
      if Attacks(p.board, q, them, king) {
        var t, e, c := DropsScreenCheckers(p, to, q);
        ScreenedTogether(s, q, to, king, u, m, n, t, e, c);
      } else {
        var t, e, c, at := LineOpened(p.board, left, q, p.board[q], king);
        assert at == r;
        PinnersAreFree(s, to, king, mated, r, q, u, m, n, v, a, b, t, e, c);
      }
    }
  }

  lemma AnyReplyIsAReply(p: Position, depth: nat)
    requires HasReply(p, depth)
    ensures HasLegalMove(p)
  {
    hide ValidateSuspended;
    assert exists reply: Move :: ValidateDeep(p, reply, depth).Success?;
    var reply: Move :| ValidateDeep(p, reply, depth).Success?;
    assert ValidateSuspended(p, reply).Success?;
  }

  /** In a position whose other side is not in check, some reply is accepted by
      the full rules, and by the search at any depth, as soon as one is with the
      rule suspended. */
  lemma SomeReplyNeedsNoRule(p: Position, depth: nat)
    requires !InCheck(p, p.turn.Opponent()) && InCheck(p, p.turn)
    ensures HasReply(p, depth) <==> HasLegalMove(p)
    ensures HasLegalMove(p) <==> exists reply: Move :: ApplyMove(p, reply).Success?
  {
    if HasLegalMove(p) {
      var reply: Move :| ValidateSuspended(p, reply).Success?;
      if ApplyMove(p, reply).Failure? {
        reply := MatingRepliesLeaveACapture(p, reply.to);
      }
      if depth > 0 {
        SuspensionIsExactOutOfCheck(p, reply, depth);
      }
      assert ApplyMove(p, reply).Success? && ValidateDeep(p, reply, depth).Success?;
    }
    if HasReply(p, depth) {
      AnyReplyIsAReply(p, depth);
    }
    if reply: Move :| ApplyMove(p, reply).Success? {
      assert ValidateSuspended(p, reply).Success?;
    }
  }

  /** Suspending the rule inside the reply search is exact, in every position:
      carrying the search any number of levels further changes no answer. */
  lemma SuspensionIsExact(p: Position, mv: Move, depth: nat)
    requires depth >= 1
    ensures ValidateDeep(p, mv, depth) == ApplyMove(p, mv)
  {
    hide HasReply, HasLegalMove, Made, BoardInCheck;
    var suspended := ValidateSuspended(p, mv);
    if suspended.Success? && InCheck(suspended.value, suspended.value.turn) {
      TurnPasses(p, mv);
      SomeReplyNeedsNoRule(suspended.value, depth - 1);
    }
  }

  lemma TurnPasses(p: Position, mv: Move)
    requires Made(p, mv).Success?
    ensures Made(p, mv).value.turn == p.turn.Opponent()
  {
  }

  lemma MakingNeverMates(p: Position, mv: Move)
    ensures Made(p, mv).Failure? ==> !Made(p, mv).error.DropPawnMate?
  {
  }

  /** `DropPawnMate` is reported exactly for a pawn drop that is otherwise
      playable, gives check, and leaves no reply the full rules accept. */
  lemma DropPawnMateMeansCheckmate(p: Position, mv: Move)
    ensures ApplyMove(p, mv).Failure? && ApplyMove(p, mv).error.DropPawnMate?
       <==> && mv.Drop? && mv.piece == HPawn
            && ValidateSuspended(p, mv).Success?
            && InCheck(ValidateSuspended(p, mv).value, p.turn.Opponent())
            && forall reply: Move :: ApplyMove(ValidateSuspended(p, mv).value, reply).Failure?
  {
    hide HasLegalMove, Made, BoardInCheck;
    MakingNeverMates(p, mv);
    var suspended := ValidateSuspended(p, mv);
    if suspended.Success? {
      TurnPasses(p, mv);
      if InCheck(suspended.value, p.turn.Opponent()) {
        SomeReplyNeedsNoRule(suspended.value, 0);
      }
    }
  }
}
