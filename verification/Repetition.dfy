/** Repetition and perpetual check (`src/game/repetition.rs`): the hash maps and
    streaks updated in place, against plain definitions over the whole history. */
module Repetition {
  import opened Wrappers
  import opened Position
  import opened Legality

  const OCCURRENCES := 4
  const CHECKER_THRESHOLD := 4
  const ESCAPER_THRESHOLD := 3
  const U32_MAX := 0xFFFF_FFFF

  datatype Verdict = NoVerdict | Draw | PerpetualCheck(loser: Color)

  // ---------------------------------------------------------------- history

  /** What has been counted: a transmitted start, or the position a move made. */
  datatype Event = Started(position: Position) | Moved(position: Position)

  type History = seq<Event>

  function Mover(p: Position): (c: Color) {
    p.turn.Opponent()
  }

  predicate MoveBy(e: Event, side: Color) {
    e.Moved? && Mover(e.position) == side
  }

  predicate GivesCheck(e: Event) {
    InCheck(e.position, e.position.turn)
  }

  /** How often `key` has occurred, the start included. */
  function Occurrences(h: History, key: Position): (n: nat) {
    if h == [] then 0
    else Occurrences(h[..|h| - 1], key) + if h[|h| - 1].position == key then 1 else 0
  }

  /** How often a move from index `from` on has made `key`. */
  function MadeSince(h: History, from: nat, key: Position): (n: nat) {
    if |h| <= from then 0
    else MadeSince(h[..|h| - 1], from, key) + if h[|h| - 1] == Moved(key) then 1 else 0
  }

  /** Where `side`'s current run of checks began: the first of its moves since
      which every one of its moves has been a check. */
  function RunStart(h: History, side: Color): (i: Option<nat>)
    ensures i.Some? ==> i.value < |h|
  {
    if h == [] then None
    else
      var n := |h| - 1;
      var before := RunStart(h[..n], side);
      if !MoveBy(h[n], side) then before
      else if !GivesCheck(h[n]) then None
      else if before.Some? then before
      else Some(n)
  }

  /** How often `key` was made inside `side`'s current run of checks. */
  function StreakCount(h: History, side: Color, key: Position): (n: nat) {
    match RunStart(h, side)
    case None => 0
    case Some(i) => MadeSince(h, i, key)
  }

  /** The verdict on the move that ended the history. */
  function VerdictOn(h: History): (v: Verdict)
    requires h != []
  {
    var key := h[|h| - 1].position;
    var mover := Mover(key);
    if Occurrences(h, key) < OCCURRENCES then NoVerdict
    else if StreakCount(h, mover, key) >= CHECKER_THRESHOLD then PerpetualCheck(mover)
    else if StreakCount(h, mover.Opponent(), key) >= ESCAPER_THRESHOLD then PerpetualCheck(mover.Opponent())
    else Draw
  }

  // ---------------------------------------------------- the counting tables

  type Counts = map<Position, int>

  function Saturated(n: int): (r: int) {
    if n < U32_MAX then n else U32_MAX
  }

  /** `entry(key).or_insert(0)` and `saturating_add(1)`. */
  function Counted(c: Counts, key: Position): (r: Counts) {
    var n := if key in c then c[key] else 0;
    c[key := if n == U32_MAX then n else n + 1]
  }

  /** The table holds exactly the keys seen, each with its saturated count. */
  ghost predicate TabulatesAll(c: Counts, h: History) {
    && (forall key :: key in c <==> Occurrences(h, key) > 0)
    && (forall key :: key in c ==> c[key] == Saturated(Occurrences(h, key)))
  }

  /** The same, for the positions made from index `from` on. */
  ghost predicate TabulatesSince(c: Counts, h: History, from: nat) {
    && (forall key :: key in c <==> MadeSince(h, from, key) > 0)
    && (forall key :: key in c ==> c[key] == Saturated(MadeSince(h, from, key)))
  }

  datatype Streak = Broken | Checking(counts: Counts)

  /** The streak is what the history says: broken with no run, otherwise the
      counts of the positions made since the run began. */
  ghost predicate Reflects(s: Streak, h: History, side: Color) {
    match RunStart(h, side)
    case None => s == Broken
    case Some(i) => s.Checking? && TabulatesSince(s.counts, h, i)
  }

  lemma {:induction false} EventIsLast(h: History, e: Event)
    ensures (h + [e])[..|h|] == h && (h + [e])[|h|] == e
  {
  }

  lemma {:induction false} OneMoreOccurrence(c: Counts, h: History, e: Event)
    requires TabulatesAll(c, h)
    ensures TabulatesAll(Counted(c, e.position), h + [e])
  {
    EventIsLast(h, e);
    forall key ensures Occurrences(h + [e], key) == Occurrences(h, key) + if key == e.position then 1 else 0 {
    }
    hide Occurrences;
  }

  lemma {:induction false} OneMoreMade(c: Counts, h: History, from: nat, p: Position)
    requires from <= |h| && TabulatesSince(c, h, from)
    ensures TabulatesSince(Counted(c, p), h + [Moved(p)], from)
  {
    EventIsLast(h, Moved(p));
    forall key ensures MadeSince(h + [Moved(p)], from, key) == MadeSince(h, from, key) + if key == p then 1 else 0 {
    }
    hide MadeSince;
  }

  /** What `begin`, `clear` and `count` together do to one streak. */
  lemma {:induction false} StreakFollows(s: Streak, h: History, side: Color, p: Position, next: Streak)
    requires Reflects(s, h, side)
    requires next == (var begun := if Mover(p) != side then s
                                   else if !InCheck(p, p.turn) then Broken
                                   else if s.Broken? then Checking(map[]) else s;
                      if begun.Broken? then Broken else Checking(Counted(begun.counts, p)))
    ensures Reflects(next, h + [Moved(p)], side)
  {
    var e := Moved(p);
    EventIsLast(h, e);
    var start := RunStart(h + [e], side);
    if start.Some? {
      if RunStart(h, side).Some? {
        OneMoreMade(s.counts, h, start.value, p);
      } else {
        assert TabulatesSince(map[], h, |h|);
        OneMoreMade(map[], h, |h|, p);
      }
    }
  }

  /** A start changes no streak. */
  lemma {:induction false} StreakIgnoresStart(s: Streak, h: History, side: Color, p: Position)
    requires Reflects(s, h, side)
    ensures Reflects(s, h + [Started(p)], side)
  {
  }

  // ------------------------------------------------------------- the object

  class RepetitionState {
    var global: Counts
    const streaks: array<Streak>
    /** Everything counted so far. */
    ghost var history: History

    ghost predicate Valid()
      reads this, streaks
    {
      && streaks.Length == 2
      && TabulatesAll(global, history)
      && Reflects(streaks[0], history, Black)
      && Reflects(streaks[1], history, White)
    }

    constructor ()
      ensures Valid() && fresh(streaks) && history == []
    {
      global := map[];
      streaks := new Streak[2](_ => Broken);
      history := [];
    }

    /** `count_start`: a start counts once and leaves both streaks alone. */
    method CountStart(p: Position)
      requires Valid()
      modifies this
      ensures Valid() && history == old(history) + [Started(p)]
    {
      ghost var h := history;
      var _ := Count(p);
      history := h + [Started(p)];
      OneMoreOccurrence(old(global), h, Started(p));
      StreakIgnoresStart(streaks[0], h, Black, p);
      StreakIgnoresStart(streaks[1], h, White, p);
    }

    /** `record`: the verdict is the stated function of the whole history. */
    method Record(p: Position) returns (v: Verdict)
      requires Valid()
      modifies this, streaks
      ensures Valid() && history == old(history) + [Moved(p)]
      ensures v == VerdictOn(history)
    {
      ghost var h := history;
      ghost var was0, was1 := streaks[0], streaks[1];
      var mover := Mover(p);
      var occurrences := Count(p);
      if InCheck(p, p.turn) {
        Begin(mover);
      } else {
        Clear(mover);
      }
      CountStreak(Black, p);
      CountStreak(White, p);

      history := h + [Moved(p)];
      OneMoreOccurrence(old(global), h, Moved(p));
      StreakFollows(was0, h, Black, p, streaks[0]);
      StreakFollows(was1, h, White, p, streaks[1]);

      if occurrences < OCCURRENCES {
        return NoVerdict;
      }
      var own := CountOf(mover, p);
      if own >= CHECKER_THRESHOLD {
        return PerpetualCheck(mover);
      }
      var theirs := CountOf(mover.Opponent(), p);
      if theirs >= ESCAPER_THRESHOLD {
        return PerpetualCheck(mover.Opponent());
      }
      return Draw;
    }

    method Count(p: Position) returns (occurrences: int)
      modifies this`global
      ensures global == Counted(old(global), p) && occurrences == global[p]
    {
      global := Counted(global, p);
      occurrences := global[p];
    }

    /** `Streak::begin`: a running streak keeps everything it has counted. */
    method Begin(side: Color)
      requires streaks.Length == 2
      modifies streaks
      ensures streaks[side.Index()] ==
        if old(streaks[side.Index()]).Broken? then Checking(map[]) else old(streaks[side.Index()])
      ensures streaks[1 - side.Index()] == old(streaks[1 - side.Index()])
    {
      if streaks[side.Index()].Broken? {
        streaks[side.Index()] := Checking(map[]);
      }
    }

    /** `Streak::clear`: the history is cleared entirely. */
    method Clear(side: Color)
      requires streaks.Length == 2
      modifies streaks
      ensures streaks[side.Index()] == Broken
      ensures streaks[1 - side.Index()] == old(streaks[1 - side.Index()])
    {
      streaks[side.Index()] := Broken;
    }

    /** `Streak::count`: a broken streak counts nothing. */
    method CountStreak(side: Color, p: Position)
      requires streaks.Length == 2
      modifies streaks
      ensures streaks[side.Index()]
           == (var s := old(streaks[side.Index()]); if s.Broken? then Broken else Checking(Counted(s.counts, p)))
      ensures streaks[1 - side.Index()] == old(streaks[1 - side.Index()])
    {
      var s := streaks[side.Index()];
      if s.Checking? {
        streaks[side.Index()] := Checking(Counted(s.counts, p));
      }
    }

    /** `Streak::count_of`: zero while broken, and for a key never counted. */
    method CountOf(side: Color, p: Position) returns (n: int)
      requires Valid()
      ensures n == Saturated(StreakCount(history, side, p))
      ensures StreakCount(history, side, p) < 0xFFFF_FFFF ==> n == StreakCount(history, side, p)
    {
      var s := streaks[side.Index()];
      match s
      case Broken => return 0;
      case Checking(counts) => return if p in counts then counts[p] else 0;
    }
  }

  // ------------------------------------------------- what a run of checks is

  /** `side`'s moves from index `i` on are all checks, the first being `i`'s. */
  ghost predicate UnbrokenFrom(h: History, side: Color, i: nat) {
    && i < |h| && MoveBy(h[i], side)
    && forall j :: i <= j < |h| && MoveBy(h[j], side) ==> GivesCheck(h[j])
  }

  /** The run the streak remembers is the longest one still unbroken: it is
      unbroken, and no earlier move of that side begins an unbroken run. */
  lemma {:induction false} RunStartIsTheLongestRun(h: History, side: Color)
    ensures match RunStart(h, side)
            case None => forall i: nat :: !UnbrokenFrom(h, side, i)
            case Some(s) => UnbrokenFrom(h, side, s) && forall i: nat :: UnbrokenFrom(h, side, i) ==> s <= i
  {
    if h != [] {
      var n := |h| - 1;
      RunStartIsTheLongestRun(h[..n], side);
      forall i: nat { UnbrokenExtends(h, side, i); }
      hide UnbrokenFrom;
    }
  }

  lemma {:induction false} UnbrokenExtends(h: History, side: Color, i: nat)
    requires h != []
    ensures (var n := |h| - 1;
             UnbrokenFrom(h, side, i)
             <==> if i < n then UnbrokenFrom(h[..n], side, i) && (MoveBy(h[n], side) ==> GivesCheck(h[n]))
                  else i == n && MoveBy(h[n], side) && GivesCheck(h[n]))
  {
    var n := |h| - 1;
    hide MoveBy, GivesCheck;
    assert forall j :: 0 <= j < n ==> h[..n][j] == h[j];
  }

  lemma {:induction false} LaterStartsCountLess(h: History, i: nat, j: nat, key: Position)
    requires i <= j
    ensures MadeSince(h, j, key) <= MadeSince(h, i, key)
  {
    if |h| > i {
      LaterStartsCountLess(h[..|h| - 1], i, j, key);
    }
  }

  /** Some run of `side`'s moves reaching to the end, every one of them a check,
      made `key` at least `times` times. */
  ghost predicate ContinuousCheck(h: History, side: Color, key: Position, times: nat) {
    exists i: nat :: UnbrokenFrom(h, side, i) && MadeSince(h, i, key) >= times
  }

  lemma {:induction false} StreakIsContinuousCheck(h: History, side: Color, key: Position, times: nat)
    requires times > 0
    ensures StreakCount(h, side, key) >= times <==> ContinuousCheck(h, side, key, times)
  {
    hide MadeSince, RunStart, UnbrokenFrom;
    RunStartIsTheLongestRun(h, side);
    var start := RunStart(h, side);
    if start.Some? && MadeSince(h, start.value, key) >= times {
      assert UnbrokenFrom(h, side, start.value);
    }
    if ContinuousCheck(h, side, key, times) {
      var i: nat :| UnbrokenFrom(h, side, i) && MadeSince(h, i, key) >= times;
      LaterStartsCountLess(h, start.value, i, key);
    }
  }

  /** The verdict in the rule's own terms: from the fourth occurrence on, the
      mover loses by a continuous check holding four of them, else the other
      side by one holding three, else it is a draw. */
  lemma {:induction false} VerdictByContinuousCheck(h: History)
    requires h != []
    ensures var key := h[|h| - 1].position;
            VerdictOn(h) == if Occurrences(h, key) < 4 then NoVerdict
                            else if ContinuousCheck(h, Mover(key), key, 4) then PerpetualCheck(Mover(key))
                            else if ContinuousCheck(h, Mover(key).Opponent(), key, 3)
                            then PerpetualCheck(Mover(key).Opponent())
                            else Draw
  {
    var key := h[|h| - 1].position;
    StreakIsContinuousCheck(h, Mover(key), key, 4);
    StreakIsContinuousCheck(h, Mover(key).Opponent(), key, 3);
  }

  // ---------------------------------------------- a streak against a span

  /** A game's history: its start, then its moves. */
  ghost predicate GameHistory(h: History) {
    h != [] && h[0].Started? && forall i :: 1 <= i < |h| ==> h[i].Moved?
  }

  /** The turn passes from each position to the next. */
  ghost predicate Alternates(h: History) {
    forall i :: 1 <= i < |h| ==> Mover(h[i].position) == h[i - 1].position.turn
  }

  /** Event `i` is the occurrence of `key` with `before` of them before it. */
  ghost predicate OccursAt(h: History, key: Position, before: nat, i: nat) {
    i < |h| && h[i].position == key && Occurrences(h[..i], key) == before
  }

  /** Every move of `side` from index `i` on is a check. */
  ghost predicate ChecksFrom(h: History, side: Color, i: int) {
    forall j :: 0 <= j < |h| && i <= j && MoveBy(h[j], side) ==> GivesCheck(h[j])
  }

  lemma {:induction false} OccurrencesGrow(h: History, key: Position, i: nat)
    requires i <= |h|
    ensures Occurrences(h[..i], key) <= Occurrences(h, key)
    ensures i < |h| && h[i].position == key ==> Occurrences(h[..i], key) < Occurrences(h, key)
  {
    if i < |h| {
      var n := |h| - 1;
      assert h[..n][..i] == h[..i];
      OccurrencesGrow(h[..n], key, i);
    } else {
      assert h[..i] == h;
    }
  }

  lemma {:induction false} OccurrencesStep(h: History, key: Position, n: nat)
    requires 1 <= n <= |h|
    ensures Occurrences(h[..n], key) == Occurrences(h[..n - 1], key) + if h[n - 1].position == key then 1 else 0
  {
    assert h[..n][..n - 1] == h[..n - 1];
  }

  /** From some move on, every occurrence is made by a move. */
  lemma {:induction false} MadeAreTheLaterOccurrences(h: History, i: nat, key: Position)
    requires GameHistory(h) && 1 <= i <= |h|
    ensures MadeSince(h, i, key) == Occurrences(h, key) - Occurrences(h[..i], key)
  {
    var n := |h| - 1;
    if i <= n {
      assert h[..n][..i] == h[..i];
      MadeAreTheLaterOccurrences(h[..n], i, key);
    } else {
      assert h[..i] == h;
    }
  }

  /** A start of a run counts all but `before` occurrences exactly when it stands
      no later than the one with so many before it. */
  lemma {:induction false} CountedFrom(h: History, key: Position, before: nat, at: nat, i: nat)
    requires GameHistory(h) && OccursAt(h, key, before, at) && 1 <= i < |h|
    ensures MadeSince(h, i, key) >= Occurrences(h, key) - before <==> i <= at
  {
    MadeAreTheLaterOccurrences(h, i, key);
    hide Occurrences, MadeSince;
    if i <= at {
      assert h[..at][..i] == h[..i];
      OccurrencesGrow(h[..at], key, i);
    } else {
      assert h[..i][..at] == h[..at];
      OccurrencesGrow(h[..i], key, at);
    }
  }

  /** At a fourth occurrence the mover is the perpetual checker exactly when a
      move made the first one and every move of its since has been a check. */
  lemma {:induction false} MoverLosesExactly(h: History, key: Position, first: nat)
    requires GameHistory(h) && Occurrences(h, key) == 4 && OccursAt(h, key, 0, first)
    ensures StreakCount(h, Mover(key), key) >= 4 <==> first >= 1 && ChecksFrom(h, Mover(key), first)
  {
    hide StreakCount, Occurrences, MadeSince;
    var side := Mover(key);
    StreakIsContinuousCheck(h, side, key, 4);
    if i: nat :| UnbrokenFrom(h, side, i) && MadeSince(h, i, key) >= 4 {
      CountedFrom(h, key, 0, first, i);
    }
    if first >= 1 && ChecksFrom(h, side, first) {
      CountedFrom(h, key, 0, first, first);
      assert UnbrokenFrom(h, side, first);
    }
  }

  /** The other side is, exactly when every move of its has been a check since
      the one the second occurrence answered; what it played before, between the
      first occurrence and that move, does not matter. */
  lemma {:induction false} OtherSideLosesExactly(h: History, key: Position, second: nat)
    requires GameHistory(h) && Alternates(h) && Occurrences(h, key) == 4 && OccursAt(h, key, 1, second)
    ensures second >= 2
    ensures StreakCount(h, key.turn, key) >= 3 <==> ChecksFrom(h, key.turn, second - 1)
  {
    SecondIsTwoLater(h, key, second);
    hide StreakCount, Occurrences, MadeSince;
    var side := key.turn;
    assert MoveBy(h[second - 1], side) && !MoveBy(h[second], side);
    StreakIsContinuousCheck(h, side, key, 3);
    if i: nat :| UnbrokenFrom(h, side, i) && MadeSince(h, i, key) >= 3 {
      CountedFrom(h, key, 1, second, i);
    }
    if ChecksFrom(h, side, second - 1) {
      CountedFrom(h, key, 1, second, second - 1);
      assert UnbrokenFrom(h, side, second - 1);
    }
  }

  lemma {:induction false} SecondIsTwoLater(h: History, key: Position, second: nat)
    requires GameHistory(h) && Alternates(h) && OccursAt(h, key, 1, second)
    ensures second >= 2
  {
    assert h[..0] == [];
    OccurrencesStep(h, key, 1);
  }

  /** A streak is not a span. The verdict at a fourth occurrence in terms of the
      moves alone: the mover's since the first occurrence, the other side's since
      just before the second. */
  lemma {:induction false} FourthOccurrenceExactly(h: History, first: nat, second: nat)
    requires GameHistory(h) && Alternates(h)
    requires var key := h[|h| - 1].position;
             Occurrences(h, key) == 4 && OccursAt(h, key, 0, first) && OccursAt(h, key, 1, second)
    ensures var key := h[|h| - 1].position;
            VerdictOn(h) == if first >= 1 && ChecksFrom(h, Mover(key), first) then PerpetualCheck(Mover(key))
                            else if ChecksFrom(h, key.turn, second - 1) then PerpetualCheck(key.turn)
                            else Draw
  {
    hide StreakCount, Occurrences;
    MoverLosesExactly(h, h[|h| - 1].position, first);
    OtherSideLosesExactly(h, h[|h| - 1].position, second);
  }

  // ------------------------------------------------ when a verdict must come

  /** No move of the history has drawn a verdict yet. */
  ghost predicate Undecided(h: History) {
    forall n :: 2 <= n <= |h| ==> VerdictOn(h[..n]) == NoVerdict
  }

  lemma {:induction false} UndecidedBelowFour(h: History, key: Position)
    requires GameHistory(h) && Undecided(h)
    ensures Occurrences(h, key) <= 3
  {
    var n := |h| - 1;
    if n == 0 {
      assert h[..0] == [];
      assert Occurrences(h[..0], key) == 0;
    } else {
      var before := h[..n];
      assert forall m :: 0 <= m <= n ==> before[..m] == h[..m];
      UndecidedBelowFour(before, key);
      assert h[..|h|] == h;
    }
  }

  /** The first verdict falls exactly on a first fourth occurrence: with no
      verdict so far, a move draws one if and only if it makes a position occur
      for the fourth time. */
  lemma {:induction false} FirstVerdictIsTheFourthOccurrence(h: History, p: Position)
    requires GameHistory(h) && Undecided(h)
    ensures VerdictOn(h + [Moved(p)]) != NoVerdict <==> Occurrences(h + [Moved(p)], p) == 4
  {
    UndecidedBelowFour(h, p);
    EventIsLast(h, Moved(p));
  }

  function Without(h: History, key: Position): (r: History)
    ensures forall e :: e in r ==> e in h && e.position != key
  {
    if h == [] then []
    else
      var n := |h| - 1;
      Without(h[..n], key) + if h[n].position == key then [] else [h[n]]
  }

  lemma {:induction false} WithoutCounts(h: History, key: Position, other: Position)
    ensures |Without(h, key)| == |h| - Occurrences(h, key)
    ensures Occurrences(Without(h, key), other) == if other == key then 0 else Occurrences(h, other)
  {
    if h != [] {
      var n := |h| - 1;
      var before := Without(h[..n], key);
      WithoutCounts(h[..n], key, other);
      assert Without(h, key) == if h[n].position == key then before else before + [h[n]];
      if h[n].position != key {
        EventIsLast(before, h[n]);
      }
      hide Without;
    }
  }

  lemma {:induction false} Pigeonhole(h: History, keys: set<Position>, limit: nat)
    requires forall e :: e in h ==> e.position in keys
    requires forall key :: Occurrences(h, key) <= limit
    ensures |h| <= limit * |keys|
    decreases |keys|
  {
    hide Occurrences, Without;
    assert h != [] ==> h[0].position in keys;
    if keys != {} {
      var key :| key in keys;
      forall other ensures Occurrences(Without(h, key), other) <= limit {
        WithoutCounts(h, key, other);
      }
      WithoutCounts(h, key, key);
      var rest := keys - {key};
      assert |keys| == |rest| + 1;
      Pigeonhole(Without(h, key), rest, limit);
      assert limit * |keys| == limit * |rest| + limit;
    }
  }

  /** A game over `n` distinct positions is decided within `3 * n + 1` of them. */
  lemma {:induction false} RepetitionMustBeDecided(h: History, keys: set<Position>)
    requires GameHistory(h)
    requires forall e :: e in h ==> e.position in keys
    requires |h| >= 3 * |keys| + 1
    ensures exists n :: 2 <= n <= |h| && VerdictOn(h[..n]) != NoVerdict
  {
    if Undecided(h) {
      forall key ensures Occurrences(h, key) <= 3 {
        UndecidedBelowFour(h, key);
      }
      Pigeonhole(h, keys, 3);
    }
  }
}
