/** The record of a finished game (`src/csa/record.rs`): the same move lines as
    the wire, with each time on a line of its own. */
module Record {
  import opened Wrappers
  import opened Position
  import opened StartSpec
  import opened Numerals
  import opened Notation
  import opened PositionBlock

  datatype TimeUnit = Second | Minute | Millisecond {
    function Text(): (s: string) {
      match this
      case Second => "1sec"
      case Minute => "1min"
      case Millisecond => "1msec"
    }
  }

  datatype TimeSettings = TimeSettings(
    unit: TimeUnit, totalTime: Option<nat>, byoyomi: nat, increment: Option<nat>, leastTimePerMove: nat)

  datatype Reduction = Reduction(side: Color, amount: nat)

  datatype GameResult = Win | Lose | DrawnGame

  datatype Ending =
    | Toryo | Kachi | IllegalKachi | IllegalMove | TimeUp
    | Sennichite | OuteSennichite | MaxMoves | Chudan | Abnormal
  {
    function Summary(): (s: string) {
      match this
      case Toryo => "toryo"
      case Kachi => "kachi"
      case IllegalKachi => "illegal kachi"
      case IllegalMove => "illegal move"
      case TimeUp => "time up"
      case Sennichite => "sennichite"
      case OuteSennichite => "oute_sennichite"
      case MaxMoves => "max_moves"
      case Chudan => "chudan"
      case Abnormal => "abnormal"
    }

    function Special(): (s: Option<string>) {
      match this
      case Toryo | Abnormal => Some("%TORYO")
      case Kachi | IllegalKachi => Some("%KACHI")
      case _ => None
    }
  }

  /** One entry of the move sequence: its move, the time written for it, and
      whether a setup made it. */
  datatype Played = Played(mv: Move, t: nat, setup: bool)

  datatype GameRecord = GameRecord(
    gameId: string, blackName: string, whiteName: string,
    maxMoves: Option<nat>, time: TimeSettings, reduction: Option<Reduction>,
    start: StartSpec, moves: seq<Played>, ending: Ending,
    results: Option<(GameResult, GameResult)>, started: string, ended: string)

  // ---------------------------------------------------------------- the lines

  function Scored(r: GameResult): (s: string) {
    match r
    case Win => "win"
    case Lose => "lose"
    case DrawnGame => "draw"
  }

  function Optionally(key: string, value: Option<nat>): (lines: seq<string>) {
    if value.Some? then [key + Decimal(value.value)] else []
  }

  function ReductionLines(reduction: Option<Reduction>): (lines: seq<string>) {
    if reduction.Some?
    then ["'Reduction:" + Decimal(reduction.value.amount), "'Reduced_Side:" + [SignOf(reduction.value.side)]]
    else []
  }

  /** The last part of a header, the same lines in every record but for a reduction. */
  function ClockLines(r: GameRecord): (lines: seq<string>) {
    ["'Byoyomi:" + Decimal(r.time.byoyomi), "'Time_Unit:" + r.time.unit.Text()]
    + ReductionLines(r.reduction)
    + ["$EVENT:" + r.gameId, "$START_TIME:" + r.started]
  }

  /** Everything before the diagram. */
  function Header(r: GameRecord): (lines: seq<string>) {
    ["V2", "N+" + r.blackName, "N-" + r.whiteName]
    + Optionally("'Max_Moves:", r.maxMoves)
    + ["'Least_Time_Per_Move:" + Decimal(r.time.leastTimePerMove)]
    + Optionally("'Increment:", r.time.increment)
    + Optionally("'Total_Time:", r.time.totalTime)
    + ClockLines(r)
  }

  /** The length of the leading run of setup entries. */
  function SetupCount(moves: seq<Played>): (n: nat)
    ensures n <= |moves|
    ensures forall i :: 0 <= i < n ==> moves[i].setup
    ensures n < |moves| ==> !moves[n].setup
  {
    if moves == [] || !moves[0].setup then 0 else 1 + SetupCount(moves[1..])
  }

  function BuoyComment(n: nat): (lines: seq<string>) {
    if n > 0 then ["'buoy game starting with " + Decimal(n) + " moves"] else []
  }

  function MovesOf(moves: seq<Played>): (mvs: seq<Move>)
    ensures |mvs| == |moves|
  {
    seq(|moves|, i requires 0 <= i < |moves| => moves[i].mv)
  }

  function TimesOf(moves: seq<Played>): (ts: seq<nat>)
    ensures |ts| == |moves|
  {
    seq(|moves|, i requires 0 <= i < |moves| => moves[i].t)
  }

  function TimeLine(t: nat): (line: string) {
    "T" + Decimal(t)
  }

  /** Each move line, with its time on the next. */
  function MoveLines(texts: seq<string>, moves: seq<Played>): (lines: seq<string>)
    requires |texts| == |moves|
    ensures |lines| == 2 * |moves|
  {
    if moves == [] then []
    else
      var n := |moves| - 1;
      MoveLines(texts[..n], moves[..n]) + [texts[n], TimeLine(moves[n].t)]
  }

  /** Everything after the moves. */
  function Trailer(r: GameRecord): (lines: seq<string>) {
    (if r.ending.Special().Some? then [r.ending.Special().value] else [])
    + ["'summary:" + r.ending.Summary()
       + ":" + r.blackName + " " + (if r.results.Some? then Scored(r.results.value.0) else "censored")
       + ":" + r.whiteName + " " + (if r.results.Some? then Scored(r.results.value.1) else "censored"),
       "'$END_TIME:" + r.ended]
  }

  function Opening(r: GameRecord): (lines: seq<string>) {
    Header(r) + Diagram(r.start) + BuoyComment(SetupCount(r.moves))
  }

  ghost function RecordLines(r: GameRecord): (lines: Result<seq<string>, Error>) {
    match WrittenMoves(r.start, MovesOf(r.moves))
    case Failure(e) => Failure(e)
    case Success(texts) => Success(Opening(r) + MoveLines(texts, r.moves) + Trailer(r))
  }

  /** Every line terminated by LF, the last one included. */
  function Terminated(lines: seq<string>): (text: string) {
    if lines == [] then "" else Terminated(lines[..|lines| - 1]) + lines[|lines| - 1] + "\n"
  }

  ghost function Render(r: GameRecord): (text: Result<string, Error>) {
    match RecordLines(r)
    case Failure(e) => Failure(e)
    case Success(lines) => Success(Terminated(lines))
  }

  // -------------------------------------------------------- the source's form

  /** `render`: the lines pushed in order, then joined. */
  method RenderRecord(r: GameRecord) returns (text: Result<string, Error>)
    ensures text == Render(r)
  {
    hide Header, WrittenPosition, MoveLines, Trailer, WrittenMoves, MovesOf;
    var lines := HeaderLines(r);
    lines := PushPosition(WrittenBoard(r.start), lines, WhenHeld);
    var setup := CountSetup(r.moves);
    if setup > 0 {
      lines := lines + ["'buoy game starting with " + Decimal(setup) + " moves"];
    }
    assert lines == Opening(r);
    hide Opening;
    var written := WriteMoves(r.start, MovesOf(r.moves));
    if written.Failure? {
      return Failure(written.error);
    }
    lines := PushMoves(written.value, r.moves, lines);
    lines := lines + Trailer(r);
    return Success(Terminated(lines));
  }

  /** The leading run of setup entries, counted. */
  method CountSetup(moves: seq<Played>) returns (setup: nat)
    ensures setup == SetupCount(moves)
  {
    setup := 0;
    while setup < |moves| && moves[setup].setup
      invariant setup <= |moves| && SetupCount(moves) == setup + SetupCount(moves[setup..])
    {
      assert moves[setup..][1..] == moves[setup + 1..];
      setup := setup + 1;
    }
  }

  /** Each move line pushed, and its time after it. */
  method PushMoves(texts: seq<string>, moves: seq<Played>, lines: seq<string>) returns (out: seq<string>)
    requires |texts| == |moves|
    ensures out == lines + MoveLines(texts, moves)
  {
    hide MoveLines, TimeLine;
    out := lines;
    NoMoves(texts, moves);
    for i := 0 to |moves|
      invariant out == lines + MoveLines(texts[..i], moves[..i])
    {
      OneMoreMove(texts, moves, i);
      out := out + [texts[i]];
      out := out + [TimeLine(moves[i].t)];
    }
    assert texts[..|moves|] == texts && moves[..|moves|] == moves;
  }

  lemma NoMoves(texts: seq<string>, moves: seq<Played>)
    requires |texts| == |moves|
    ensures MoveLines(texts[..0], moves[..0]) == []
  {
  }

  /** The header, pushed line by line. */
  method HeaderLines(r: GameRecord) returns (lines: seq<string>)
    ensures lines == Header(r)
  {
    hide Decimal;
    var head := ["V2", "N+" + r.blackName, "N-" + r.whiteName];
    lines := head;
    if r.maxMoves.Some? {
      lines := lines + ["'Max_Moves:" + Decimal(r.maxMoves.value)];
    }
    lines := lines + ["'Least_Time_Per_Move:" + Decimal(r.time.leastTimePerMove)];
    ghost var limits := lines;
    if r.time.increment.Some? {
      lines := lines + ["'Increment:" + Decimal(r.time.increment.value)];
    }
    if r.time.totalTime.Some? {
      lines := lines + ["'Total_Time:" + Decimal(r.time.totalTime.value)];
    }
    assert lines == limits + Optionally("'Increment:", r.time.increment) + Optionally("'Total_Time:", r.time.totalTime);
    var clock := PushClock(r);
    hide ClockLines, Optionally;
    lines := lines + clock;
  }

  method PushClock(r: GameRecord) returns (lines: seq<string>)
    ensures lines == ClockLines(r)
  {
    hide Decimal;
    lines := ["'Byoyomi:" + Decimal(r.time.byoyomi)];
    lines := lines + ["'Time_Unit:" + r.time.unit.Text()];
    if r.reduction.Some? {
      lines := lines + ["'Reduction:" + Decimal(r.reduction.value.amount)];
      lines := lines + ["'Reduced_Side:" + [SignOf(r.reduction.value.side)]];
    }
    lines := lines + ["$EVENT:" + r.gameId];
    lines := lines + ["$START_TIME:" + r.started];
  }

  lemma OneMoreMove(texts: seq<string>, moves: seq<Played>, i: nat)
    requires |texts| == |moves| && i < |moves|
    ensures MoveLines(texts[..i + 1], moves[..i + 1])
         == MoveLines(texts[..i], moves[..i]) + [texts[i]] + [TimeLine(moves[i].t)]
  {
    hide TimeLine;
    assert texts[..i + 1][..i] == texts[..i] && moves[..i + 1][..i] == moves[..i];
  }

  // ------------------------------------------------ what a header tells

  /** The first of these lines differs from the key in its second character. */
  predicate Follows(key: string, lines: seq<string>) {
    |key| > 1 && lines != [] && |lines[0]| > 1 && lines[0][1] != key[1]
  }

  lemma DecimalsDiffer(m: nat, n: nat)
    ensures Decimal(m) == Decimal(n) <==> m == n
  {
    DecimalRoundTrip(m);
    DecimalRoundTrip(n);
  }

  lemma ValuesAfterAKey(key: string, a: string, b: string)
    requires key + a == key + b
    ensures a == b
  {
    assert (key + a)[|key|..] == a && (key + b)[|key|..] == b;
  }

  lemma NumbersAfterAKey(key: string, m: nat, n: nat)
    requires key + Decimal(m) == key + Decimal(n)
    ensures m == n
  {
    ValuesAfterAKey(key, Decimal(m), Decimal(n));
    DecimalsDiffer(m, n);
  }

  /** Whether an optional line is there, and its value, can be told from what
      follows it never starting as it would. */
  lemma OptionalLineTells(key: string, a: Option<nat>, b: Option<nat>, x: seq<string>, y: seq<string>)
    requires Optionally(key, a) + x == Optionally(key, b) + y
    requires Follows(key, x) && Follows(key, y)
    ensures a == b && x == y
  {
    var left, right := Optionally(key, a) + x, Optionally(key, b) + y;
    assert a.Some? ==> left[0] == key + Decimal(a.value) && left[0][1] == key[1];
    assert b.Some? ==> right[0] == key + Decimal(b.value) && right[0][1] == key[1];
    assert a.None? ==> left == x;
    assert b.None? ==> right == y;
    if a.Some? && b.Some? {
      NumbersAfterAKey(key, a.value, b.value);
      assert left[1..] == x && right[1..] == y;
    }
  }

  lemma ReductionTells(a: GameRecord, b: GameRecord)
    requires ReductionLines(a.reduction) + ["$EVENT:" + a.gameId, "$START_TIME:" + a.started]
          == ReductionLines(b.reduction) + ["$EVENT:" + b.gameId, "$START_TIME:" + b.started]
    ensures a.reduction == b.reduction && a.gameId == b.gameId && a.started == b.started
  {
    var left := ReductionLines(a.reduction) + ["$EVENT:" + a.gameId, "$START_TIME:" + a.started];
    assert left[|left| - 1] == "$START_TIME:" + b.started && left[|left| - 2] == "$EVENT:" + b.gameId;
    ValuesAfterAKey("$EVENT:", a.gameId, b.gameId);
    ValuesAfterAKey("$START_TIME:", a.started, b.started);
    if a.reduction.Some? {
      var ra, rb := a.reduction.value, b.reduction.value;
      assert left[0] == "'Reduction:" + Decimal(ra.amount) == "'Reduction:" + Decimal(rb.amount);
      assert left[1] == "'Reduced_Side:" + [SignOf(ra.side)] == "'Reduced_Side:" + [SignOf(rb.side)];
      NumbersAfterAKey("'Reduction:", ra.amount, rb.amount);
      ValuesAfterAKey("'Reduced_Side:", [SignOf(ra.side)], [SignOf(rb.side)]);
    }
  }

  lemma ClockEnds(r: GameRecord)
    ensures ClockLines(r)[2..] == ReductionLines(r.reduction) + ["$EVENT:" + r.gameId, "$START_TIME:" + r.started]
  {
    hide ReductionLines;
  }

  lemma ClockStarts(r: GameRecord)
    ensures ClockLines(r) != [] && |ClockLines(r)[0]| > 1 && ClockLines(r)[0][1] == 'B'
  {
    assert ClockLines(r)[0] == "'Byoyomi:" + Decimal(r.time.byoyomi);
  }

  lemma LimitsStart(r: GameRecord)
    ensures AfterLimits(r) == Optionally("'Increment:", r.time.increment) + AfterIncrement(r)
    ensures Follows("'Increment:", AfterIncrement(r)) && Follows("'Total_Time:", ClockLines(r))
  {
    ClockStarts(r);
    if r.time.totalTime.Some? {
      assert AfterIncrement(r)[0] == "'Total_Time:" + Decimal(r.time.totalTime.value);
    } else {
      assert AfterIncrement(r) == ClockLines(r);
    }
    hide ClockLines;
  }

  lemma ClockTells(a: GameRecord, b: GameRecord)
    requires ClockLines(a) == ClockLines(b)
    ensures a.time.byoyomi == b.time.byoyomi && a.time.unit == b.time.unit
    ensures a.reduction == b.reduction && a.gameId == b.gameId && a.started == b.started
  {
    NumbersAfterAKey("'Byoyomi:", a.time.byoyomi, b.time.byoyomi) by {
      assert ClockLines(a)[0] == ClockLines(b)[0];
    }
    ValuesAfterAKey("'Time_Unit:", a.time.unit.Text(), b.time.unit.Text()) by {
      assert ClockLines(a)[1] == ClockLines(b)[1];
    }
    assert |a.time.unit.Text()| == |b.time.unit.Text()|;
    ReductionTells(a, b) by {
      ClockEnds(a);
      ClockEnds(b);
    }
  }

  function AfterIncrement(r: GameRecord): (lines: seq<string>) {
    Optionally("'Total_Time:", r.time.totalTime) + ClockLines(r)
  }

  function AfterLimits(r: GameRecord): (lines: seq<string>) {
    Optionally("'Increment:", r.time.increment) + AfterIncrement(r)
  }

  lemma TimesTell(a: GameRecord, b: GameRecord)
    requires AfterLimits(a) == AfterLimits(b)
    ensures a.time.increment == b.time.increment && a.time.totalTime == b.time.totalTime
    ensures ClockLines(a) == ClockLines(b)
  {
    hide Follows, ClockLines, Optionally;
    LimitsStart(a);
    LimitsStart(b);
    OptionalLineTells("'Increment:", a.time.increment, b.time.increment, AfterIncrement(a), AfterIncrement(b));
    OptionalLineTells("'Total_Time:", a.time.totalTime, b.time.totalTime, ClockLines(a), ClockLines(b));
  }

  /** A header loses nothing: records with one header have the same names, limit,
      time settings, reduction, game and start. */
  lemma HeaderLosesNothing(a: GameRecord, b: GameRecord)
    requires Header(a) == Header(b)
    ensures a.blackName == b.blackName && a.whiteName == b.whiteName
    ensures a.maxMoves == b.maxMoves && a.time == b.time && a.reduction == b.reduction
    ensures a.gameId == b.gameId && a.started == b.started
  {
    hide ClockLines, Optionally, Decimal;
    ValuesAfterAKey("N+", a.blackName, b.blackName) by { assert Header(a)[1] == Header(b)[1]; }
    ValuesAfterAKey("N-", a.whiteName, b.whiteName) by { assert Header(a)[2] == Header(b)[2]; }
    var lastA, lastB := AfterLimits(a), AfterLimits(b);
    var leastA := ["'Least_Time_Per_Move:" + Decimal(a.time.leastTimePerMove)] + lastA;
    var leastB := ["'Least_Time_Per_Move:" + Decimal(b.time.leastTimePerMove)] + lastB;
    assert Header(a)[3..] == Optionally("'Max_Moves:", a.maxMoves) + leastA;
    assert Header(b)[3..] == Optionally("'Max_Moves:", b.maxMoves) + leastB;
    OptionalLineTells("'Max_Moves:", a.maxMoves, b.maxMoves, leastA, leastB);
    NumbersAfterAKey("'Least_Time_Per_Move:", a.time.leastTimePerMove, b.time.leastTimePerMove) by {
      assert leastA[0] == leastB[0];
    }
    assert lastA == leastA[1..] && lastB == leastB[1..];
    TimesTell(a, b);
    ClockTells(a, b);
  }

  // ------------------------------------------------ agreement with the wire

  /** Where a move and its time stand among the move lines. */
  lemma {:induction false} MoveLinesAt(texts: seq<string>, moves: seq<Played>, i: nat)
    requires |texts| == |moves| && i < |moves|
    ensures MoveLines(texts, moves)[2 * i] == texts[i]
    ensures MoveLines(texts, moves)[2 * i + 1] == TimeLine(moves[i].t)
  {
    hide TimeLine;
    var n := |moves| - 1;
    if i < n {
      MoveLinesAt(texts[..n], moves[..n], i);
    }
  }

  /** The record's leading setup entries are the buoy's moves, with the T-values
      transmitted for them. */
  ghost predicate RecordsBuoy(r: GameRecord, times: seq<nat>) {
    && r.start.Buoy?
    && |times| == |r.start.setup| == SetupCount(r.moves)
    && MovesOf(r.moves)[..|times|] == r.start.setup
    && TimesOf(r.moves)[..|times|] == times
  }

  /** A record that renders has a transmitted block, and the block's move lines
      are the record's, each split at its comma, in order. */
  lemma RecordAgreesWithTheWire(r: GameRecord, times: seq<nat>, i: nat)
    requires RecordLines(r).Success? && RecordsBuoy(r, times) && i < |times|
    ensures Encode(r.start, times).Success?
    ensures var rec, wire := RecordLines(r).value, Encode(r.start, times).value;
            var at, from := |Opening(r)| + 2 * i, |WrittenPosition(HiratePosition(), Always)| + i;
            && at + 1 < |rec| && from < |wire|
            && wire[from] == rec[at] + "," + rec[at + 1]
  {
    hide HiratePosition, WriteReplay, Opening, MoveLines, Trailer, WrittenPosition, Echoes, MoveEcho, TimeLine;
    SetupIsWrittenFirst(r, times);
    var texts := WrittenMoves(r.start, r.start.setup).value;
    var all := WrittenMoves(r.start, MovesOf(r.moves)).value;
    assert texts[i] == all[i];
    MoveLinesAt(all, r.moves, i);
    EchoAt(texts, times, i);
    EchoIsMoveCommaTime(texts[i], times[i]);
    assert TimesOf(r.moves)[i] == TimesOf(r.moves)[..|times|][i] == times[i];
  }

  /** The setup's lines are the first of the record's. */
  lemma SetupIsWrittenFirst(r: GameRecord, times: seq<nat>)
    requires RecordLines(r).Success? && RecordsBuoy(r, times)
    ensures WrittenMoves(r.start, r.start.setup).Success? && |times| <= |r.moves|
    ensures WrittenMoves(r.start, r.start.setup).value == WrittenMoves(r.start, MovesOf(r.moves)).value[..|times|]
  {
    hide HiratePosition, Opening, MoveLines, Trailer;
    WritingIsPrefixStable(HiratePosition(), MovesOf(r.moves), |times|);
    hide WriteReplay;
  }

  lemma EchoAt(texts: seq<string>, times: seq<nat>, i: nat)
    requires |texts| == |times| && i < |texts|
    ensures |Echoes(texts, times)| == |texts| && Echoes(texts, times)[i] == MoveEcho(texts[i], times[i])
  {
  }

  lemma EchoIsMoveCommaTime(text: string, t: nat)
    ensures MoveEcho(text, t) == text + "," + TimeLine(t)
  {
  }

  /** The count the record announces is the number of move lines on the wire,
      and reads back as that number. */
  lemma AnnouncedCountIsTheWireCount(r: GameRecord, times: seq<nat>)
    requires RecordLines(r).Success? && RecordsBuoy(r, times) && times != []
    ensures Encode(r.start, times).Success?
    ensures var n := |Encode(r.start, times).value| - |WrittenPosition(HiratePosition(), Always)|;
            && n == |times|
            && RecordLines(r).value[|Opening(r)| - 1] == "'buoy game starting with " + Decimal(n) + " moves"
            && ValueOf(Decimal(n)) == n
  {
    hide HiratePosition, WriteReplay, MoveLines, Trailer, WrittenPosition, Echoes, RecordsBuoy;
    RecordAgreesWithTheWire(r, times, 0);
    DecimalRoundTrip(|times|);
    BuoyCount(r, times);
    OpeningEndsWithTheCount(r);
    EchoesLength(WrittenMoves(r.start, r.start.setup).value, times);
  }

  lemma BuoyCount(r: GameRecord, times: seq<nat>)
    requires RecordsBuoy(r, times)
    ensures r.start.Buoy? && |times| == SetupCount(r.moves)
  {
  }

  lemma EchoesLength(texts: seq<string>, times: seq<nat>)
    requires |texts| == |times|
    ensures |Echoes(texts, times)| == |times|
  {
  }

  lemma OpeningEndsWithTheCount(r: GameRecord)
    requires SetupCount(r.moves) > 0
    ensures |Opening(r)| > 0
    ensures Opening(r)[|Opening(r)| - 1] == "'buoy game starting with " + Decimal(SetupCount(r.moves)) + " moves"
  {
  }
}
