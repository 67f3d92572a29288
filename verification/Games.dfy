/** The repetition state of a game as it is played: the transmitted start counted,
    then every position the moves lead to (`src/session/game_task.rs`, lines
    134-146 and 317-329). */
module Games {
  import opened Wrappers
  import opened Position
  import opened Movement
  import opened MovementShapes
  import opened Legality
  import opened StartSpec
  import opened Repetition

  /** What a game that passes through these positions has counted. */
  function HistoryOf(ps: seq<Position>): (h: History)
    ensures |h| == |ps|
    ensures forall i :: 0 <= i < |ps| ==> h[i].position == ps[i] && (h[i].Started? <==> i == 0)
  {
    seq(|ps|, i requires 0 <= i < |ps| => if i == 0 then Started(ps[0]) else Moved(ps[i]))
  }

  /** The state a game starts from: the start counted, then the setup recorded,
      whatever verdicts that may draw. */
  method SeedRepetition(spec: StartSpec) returns (refused: Option<IllegalSetup>, repetition: RepetitionState)
    ensures refused == match Traverse(spec) case Success(_) => None case Failure(e) => Some(e)
    ensures fresh(repetition) && repetition.Valid() && fresh(repetition.streaks)
    ensures refused.None? ==> repetition.history == HistoryOf(Traverse(spec).value)
  {
    repetition := new RepetitionState();
    var traversal := TraversePositions(spec);
    if traversal.Failure? {
      return Some(traversal.error), repetition;
    }
    var ps := traversal.value;
    TraversalsBegin(spec);
    repetition.CountStart(ps[0]);
    OnlyTheStart(ps);
    hide HistoryOf, Traverse, TabulatesAll, Reflects, VerdictOn;
    for i := 1 to |ps|
      invariant repetition.Valid()
      invariant repetition.history == HistoryOf(ps[..i])
    {
      var _ := repetition.Record(ps[i]);
      OneMovePlayed(ps, i);
    }
    assert ps[..|ps|] == ps;
    return None, repetition;
  }

  lemma OnlyTheStart(ps: seq<Position>)
    requires ps != []
    ensures HistoryOf(ps[..1]) == [Started(ps[0])]
  {
  }

  lemma OneMovePlayed(ps: seq<Position>, i: nat)
    requires 1 <= i < |ps|
    ensures HistoryOf(ps[..i + 1]) == HistoryOf(ps[..i]) + [Moved(ps[i])]
  {
  }

  lemma TraversalsBegin(spec: StartSpec)
    requires Traverse(spec).Success?
    ensures Traverse(spec).value != []
  {
  }

  lemma TurnPasses(p: Position, mv: Move)
    requires ApplyMove(p, mv).Success?
    ensures ApplyMove(p, mv).value.turn == p.turn.Opponent()
  {
    hide BoardInCheck, HasLegalMove;
  }

  /** Every replay is a game: a start and then moves, the sides in turn. */
  lemma ReplaysAreGames(start: Position, moves: seq<Move>)
    requires Replay(start, moves).Success?
    ensures var h := HistoryOf(Replay(start, moves).value); GameHistory(h) && Alternates(h)
  {
    var ps := Replay(start, moves).value;
    hide Replay, ApplyMove;
    forall i | 1 <= i < |ps| ensures Mover(ps[i]) == ps[i - 1].turn {
      ReplayIsStepwise(start, moves, i - 1);
      TurnPasses(ps[i - 1], moves[i - 1]);
    }
  }

  // ------------------------------------------------ the verdict of a replay

  /** `key` stands at these four positions and nowhere else. */
  ghost predicate OccursFourTimes(ps: seq<Position>, key: Position, a: nat, b: nat, c: nat, d: nat) {
    && a < b < c < d < |ps|
    && forall i :: 0 <= i < |ps| ==> (ps[i] == key <==> i == a || i == b || i == c || i == d)
  }

  /** From position `i` on, every move of `side` has left its opponent in check. */
  ghost predicate ChecksSince(ps: seq<Position>, side: Color, i: int) {
    forall j :: 1 <= j < |ps| && i <= j && ps[j - 1].turn == side ==> InCheck(ps[j], ps[j].turn)
  }

  lemma {:induction false} NoneBetween(h: History, key: Position, i: nat, j: nat)
    requires i <= j <= |h|
    requires forall k :: i <= k < j ==> h[k].position != key
    ensures Occurrences(h[..j], key) == Occurrences(h[..i], key)
    decreases j - i
  {
    if i < j {
      NoneBetween(h, key, i, j - 1);
      OccurrencesStep(h, key, j);
    }
  }

  /** Up to and with the next occurrence. */
  lemma {:induction false} NextOccurrence(h: History, key: Position, i: nat, j: nat)
    requires i <= j < |h| && h[j].position == key
    requires forall k :: i <= k < j ==> h[k].position != key
    ensures Occurrences(h[..j], key) == Occurrences(h[..i], key)
    ensures Occurrences(h[..j + 1], key) == Occurrences(h[..i], key) + 1
  {
    NoneBetween(h, key, i, j);
    OccurrencesStep(h, key, j + 1);
  }

  lemma {:induction false} TwoMore(h: History, key: Position, i: nat, a: nat, b: nat)
    requires i <= a < b < |h| && h[a].position == key && h[b].position == key
    requires forall k :: i <= k < b && k != a ==> h[k].position != key
    ensures Occurrences(h[..a], key) == Occurrences(h[..i], key)
    ensures Occurrences(h[..b], key) == Occurrences(h[..i], key) + 1
    ensures Occurrences(h[..b + 1], key) == Occurrences(h[..i], key) + 2
  {
    hide Occurrences;
    NextOccurrence(h, key, i, a);
    NextOccurrence(h, key, a + 1, b);
  }

  lemma {:induction false} FourAreCounted(h: History, key: Position, a: nat, b: nat, c: nat, d: nat)
    requires a < b < c < d == |h| - 1
    requires forall i :: 0 <= i < |h| ==> (h[i].position == key <==> i == a || i == b || i == c || i == d)
    ensures Occurrences(h[..a], key) == 0 && Occurrences(h[..b], key) == 1 && Occurrences(h, key) == 4
  {
    assert h[..0] == [] && Occurrences(h[..0], key) == 0 && h[..|h|] == h;
    hide Occurrences;
    TwoMore(h, key, 0, a, b);
    TwoMore(h, key, b + 1, c, d);
  }

  lemma ChecksAreTheMoves(start: Position, moves: seq<Move>, side: Color, i: int)
    requires Replay(start, moves).Success?
    ensures var ps := Replay(start, moves).value; ChecksFrom(HistoryOf(ps), side, i) <==> ChecksSince(ps, side, i)
  {
    var ps := Replay(start, moves).value;
    ReplaysAreGames(start, moves);
    hide Replay, HistoryOf, InCheck;
    var h := HistoryOf(ps);
    forall j | 1 <= j < |ps| ensures MoveBy(h[j], side) <==> ps[j - 1].turn == side {
      assert h[j].Moved? && Mover(h[j].position) == h[j - 1].position.turn;
    }
  }

  /** The verdict on a replay whose last move makes a position for the fourth
      time, from the positions alone. The side that made it loses if a move made
      the first of the four and every move of its since has been a check; else
      the other side does if every move of its has, from the one that the second
      of the four answered; else it is a draw. */
  lemma VerdictOfAReplay(start: Position, moves: seq<Move>, a: nat, b: nat, c: nat)
    requires Replay(start, moves).Success?
    requires var ps := Replay(start, moves).value; OccursFourTimes(ps, ps[|moves|], a, b, c, |moves|)
    ensures var ps := Replay(start, moves).value;
            var key := ps[|moves|];
            VerdictOn(HistoryOf(ps)) == if a >= 1 && ChecksSince(ps, key.turn.Opponent(), a)
                                        then PerpetualCheck(key.turn.Opponent())
                                        else if ChecksSince(ps, key.turn, b - 1) then PerpetualCheck(key.turn)
                                        else Draw
  {
    var ps := Replay(start, moves).value;
    var key := ps[|moves|];
    var h := HistoryOf(ps);
    assert forall i :: 0 <= i < |ps| ==> h[i].position == ps[i];
    hide Replay, HistoryOf, ChecksSince, ChecksFrom, VerdictOn, Occurrences;
    ReplaysAreGames(start, moves);
    FourAreCounted(h, key, a, b, c, |moves|);
    ChecksAreTheMoves(start, moves, key.turn.Opponent(), a);
    ChecksAreTheMoves(start, moves, key.turn, b - 1);
    FourthOccurrenceExactly(h, a, b);
  }
}
