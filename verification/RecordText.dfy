/** What a record says, line by line (`src/csa/record.rs`, lines 206-293), in the
    words of the format and apart from the functions that write it. */
module RecordText {
  import opened Wrappers
  import opened Position
  import opened StartSpec
  import opened Numerals
  import opened Notation
  import opened PositionBlock
  import opened Record

  // ------------------------------------------------------------- the words

  const ENDING_WORDS: map<Ending, string> :=
    map[Toryo := "toryo", Kachi := "kachi", IllegalKachi := "illegal kachi", IllegalMove := "illegal move",
        TimeUp := "time up", Sennichite := "sennichite", OuteSennichite := "oute_sennichite",
        MaxMoves := "max_moves", Chudan := "chudan", Abnormal := "abnormal"]

  /** The command that ends the moves of a record, for the endings that have one. */
  const ENDING_COMMANDS: map<Ending, string> :=
    map[Toryo := "%TORYO", Abnormal := "%TORYO", Kachi := "%KACHI", IllegalKachi := "%KACHI"]

  const RESULT_WORDS: map<GameResult, string> := map[Win := "win", Lose := "lose", DrawnGame := "draw"]

  const UNIT_WORDS: map<TimeUnit, string> := map[Second := "1sec", Minute := "1min", Millisecond := "1msec"]

  lemma EveryWordIsListed(ending: Ending, result: GameResult, unit: TimeUnit)
    ensures ending in ENDING_WORDS && ending.Summary() == ENDING_WORDS[ending]
    ensures ending.Special() == if ending in ENDING_COMMANDS then Some(ENDING_COMMANDS[ending]) else None
    ensures result in RESULT_WORDS && Scored(result) == RESULT_WORDS[result]
    ensures unit in UNIT_WORDS && unit.Text() == UNIT_WORDS[unit]
  {
  }

  /** The summary line: the ending, then each player's name and result, Black
      first; a game without results says so of both. */
  function SummaryLine(ending: Ending, black: string, white: string, results: Option<(GameResult, GameResult)>)
      : (line: string)
    requires ending in ENDING_WORDS && (forall g: GameResult :: g in RESULT_WORDS)
  {
    match results
    case None => "'summary:" + ENDING_WORDS[ending] + ":" + black + " censored:" + white + " censored"
    case Some((b, w)) =>
      "'summary:" + ENDING_WORDS[ending] + ":" + black + " " + RESULT_WORDS[b] + ":" + white + " " + RESULT_WORDS[w]
  }

  // ------------------------------------------------------------- the header

  /** The lines of a list that are there, in its order. */
  function Kept(lines: seq<(bool, string)>): (kept: seq<string>) {
    if lines == [] then []
    else (if lines[0].0 then [lines[0].1] else []) + Kept(lines[1..])
  }

  lemma {:induction false} KeptJoins(a: seq<(bool, string)>, b: seq<(bool, string)>)
    ensures Kept(a + b) == Kept(a) + Kept(b)
  {
    if a == [] {
      assert a + b == b;
    } else {
      assert (a + b)[1..] == a[1..] + b;
      KeptJoins(a[1..], b);
    }
  }

  /** The number of an option, or any number where there is none. */
  function NumberOf(n: Option<nat>): (m: nat) {
    if n.Some? then n.value else 0
  }

  /** Every line a header can have, in its order, and which of them it has. */
  function HeaderTable(r: GameRecord): (lines: seq<(bool, string)>) {
    var amount := if r.reduction.Some? then r.reduction.value.amount else 0;
    var side := if r.reduction.Some? && r.reduction.value.side.White? then "-" else "+";
    [(true, "V2"),
     (true, "N+" + r.blackName),
     (true, "N-" + r.whiteName),
     (r.maxMoves.Some?, "'Max_Moves:" + Decimal(NumberOf(r.maxMoves))),
     (true, "'Least_Time_Per_Move:" + Decimal(r.time.leastTimePerMove)),
     (r.time.increment.Some?, "'Increment:" + Decimal(NumberOf(r.time.increment))),
     (r.time.totalTime.Some?, "'Total_Time:" + Decimal(NumberOf(r.time.totalTime))),
     (true, "'Byoyomi:" + Decimal(r.time.byoyomi)),
     (true, "'Time_Unit:" + match r.time.unit case Second => "1sec" case Minute => "1min" case Millisecond => "1msec"),
     (r.reduction.Some?, "'Reduction:" + Decimal(amount)),
     (r.reduction.Some?, "'Reduced_Side:" + side),
     (true, "$EVENT:" + r.gameId),
     (true, "$START_TIME:" + r.started)]
  }

  lemma KeptPair(a: (bool, string), b: (bool, string))
    ensures Kept([a, b]) == (if a.0 then [a.1] else []) + (if b.0 then [b.1] else [])
  {
    var both, last := [a, b], [b];
    assert both[1..] == last && last[1..] == [];
    assert Kept(last) == (if b.0 then [b.1] else []);
  }

  lemma KeptTriple(a: string, b: string, c: string)
    ensures Kept([(true, a), (true, b), (true, c)]) == [a, b, c]
  {
    var one, two := [(true, a)], [(true, b), (true, c)];
    assert [(true, a), (true, b), (true, c)] == one + two;
    assert one[1..] == [] && Kept(one) == [a];
    KeptJoins(one, two);
    KeptPair((true, b), (true, c));
    assert [a] + ([b] + [c]) == [a, b, c];
  }

  /** The pieces of a table of thirteen. */
  lemma KeptInPieces(t: seq<(bool, string)>)
    requires |t| == 13
    ensures Kept(t) == Kept([t[0], t[1], t[2]]) + (Kept([t[3], t[4]]) + (Kept([t[5], t[6]]) + (Kept([t[7], t[8]])
                       + (Kept([t[9], t[10]]) + Kept([t[11], t[12]])))))
  {
    var last := [t[11], t[12]];
    var five := [t[9], t[10]] + last;
    var four := [t[7], t[8]] + five;
    var three := [t[5], t[6]] + four;
    var two := [t[3], t[4]] + three;
    assert t == [t[0], t[1], t[2]] + two;
    hide Kept;
    KeptJoins([t[0], t[1], t[2]], two);
    KeptJoins([t[3], t[4]], three);
    KeptJoins([t[5], t[6]], four);
    KeptJoins([t[7], t[8]], five);
    KeptJoins([t[9], t[10]], last);
  }

  lemma Regrouped(a: seq<string>, b: seq<string>, c: seq<string>, d: seq<string>, e: seq<string>, f: seq<string>,
                  g: seq<string>, h: seq<string>)
    ensures a + b + c + d + e + (f + g + h) == a + ((b + c) + ((d + e) + (f + (g + h))))
  {
  }

  lemma OptionalPairs(r: GameRecord)
    ensures var t := HeaderTable(r);
            && |t| == 13
            && Kept([t[3], t[4]]) == Optionally("'Max_Moves:", r.maxMoves)
                                     + ["'Least_Time_Per_Move:" + Decimal(r.time.leastTimePerMove)]
            && Kept([t[5], t[6]]) == Optionally("'Increment:", r.time.increment)
                                     + Optionally("'Total_Time:", r.time.totalTime)
  {
    hide Decimal, Kept;
    var t := HeaderTable(r);
    KeptPair(t[3], t[4]);
    KeptPair(t[5], t[6]);
  }

  lemma ClockPairs(r: GameRecord)
    ensures var t := HeaderTable(r);
            && |t| == 13
            && Kept([t[7], t[8]]) == ["'Byoyomi:" + Decimal(r.time.byoyomi), "'Time_Unit:" + r.time.unit.Text()]
            && Kept([t[9], t[10]]) == ReductionLines(r.reduction)
            && Kept([t[11], t[12]]) == ["$EVENT:" + r.gameId, "$START_TIME:" + r.started]
  {
    hide Decimal, Kept;
    var t := HeaderTable(r);
    KeptPair(t[7], t[8]);
    KeptPair(t[9], t[10]);
    KeptPair(t[11], t[12]);
  }

  /** A header is the lines of its table that are there. */
  lemma HeaderInOrder(r: GameRecord)
    ensures Header(r) == Kept(HeaderTable(r))
  {
    var t := HeaderTable(r);
    assert t[0] == (true, "V2") && t[1] == (true, "N+" + r.blackName) && t[2] == (true, "N-" + r.whiteName);
    OptionalPairs(r);
    ClockPairs(r);
    hide Decimal, HeaderTable, Kept, Optionally, ReductionLines;
    KeptInPieces(t);
    KeptTriple("V2", "N+" + r.blackName, "N-" + r.whiteName);
    Regrouped(["V2", "N+" + r.blackName, "N-" + r.whiteName], Optionally("'Max_Moves:", r.maxMoves),
              ["'Least_Time_Per_Move:" + Decimal(r.time.leastTimePerMove)],
              Optionally("'Increment:", r.time.increment), Optionally("'Total_Time:", r.time.totalTime),
              ["'Byoyomi:" + Decimal(r.time.byoyomi), "'Time_Unit:" + r.time.unit.Text()],
              ReductionLines(r.reduction), ["$EVENT:" + r.gameId, "$START_TIME:" + r.started]);
  }

  // -------------------------------------------------------- the whole record

  /** The first `n` entries came from the setup, and no more do before the first
      that did not. */
  predicate LeadingSetup(moves: seq<Played>, n: nat) {
    && n <= |moves|
    && (forall i :: 0 <= i < n ==> moves[i].setup)
    && (n < |moves| ==> !moves[n].setup)
  }

  /** The record as the format has it. */
  predicate IsRecord(r: GameRecord, setup: nat, moves: seq<string>, lines: seq<string>)
    requires r.ending in ENDING_WORDS && (forall g: GameResult :: g in RESULT_WORDS)
  {
    lines == Kept(HeaderTable(r))
             + WrittenPosition(WrittenBoard(r.start), WhenHeld)
             + (if setup > 0 then ["'buoy game starting with " + Decimal(setup) + " moves"] else [])
             + moves
             + (if r.ending in ENDING_COMMANDS then [ENDING_COMMANDS[r.ending]] else [])
             + [SummaryLine(r.ending, r.blackName, r.whiteName, r.results), "'$END_TIME:" + r.ended]
  }

  /** Reading the move lines of the record gives its moves back, each move line
      with its time on the next. */
  ghost predicate MovesReadBack(r: GameRecord, lines: seq<string>) {
    && |lines| == 2 * |r.moves|
    && (forall i :: 0 <= i < |r.moves| ==> lines[2 * i + 1] == "T" + Decimal(r.moves[i].t))
    && var texts := seq(|r.moves|, i requires 0 <= i < |r.moves| => lines[2 * i]);
       ReadReplay(WrittenBoard(r.start), texts).Some?
       && ReadReplay(WrittenBoard(r.start), texts).value.setup == MovesOf(r.moves)
  }

  lemma Censored(front: string, white: string)
    ensures front + " " + "censored" + ":" + white + " " + "censored" == front + " censored:" + white + " censored"
  {
  }

  lemma TrailerInOrder(r: GameRecord)
    ensures r.ending in ENDING_WORDS && forall g: GameResult :: g in RESULT_WORDS
    ensures Trailer(r)
         == (if r.ending in ENDING_COMMANDS then [ENDING_COMMANDS[r.ending]] else [])
            + [SummaryLine(r.ending, r.blackName, r.whiteName, r.results), "'$END_TIME:" + r.ended]
  {
    EveryWordIsListed(r.ending, Win, Second);
    forall g: GameResult ensures g in RESULT_WORDS && Scored(g) == RESULT_WORDS[g] {
      EveryWordIsListed(r.ending, g, Second);
    }
    Censored("'summary:" + r.ending.Summary() + ":" + r.blackName, r.whiteName);
    hide ENDING_WORDS, ENDING_COMMANDS, RESULT_WORDS, Scored;
  }

  lemma MoveLinesReadBack(r: GameRecord, texts: seq<string>)
    requires WrittenMoves(r.start, MovesOf(r.moves)) == Success(texts)
    ensures MovesReadBack(r, MoveLines(texts, r.moves))
  {
    hide WriteReplay, ReadReplay, MoveLines, WrittenBoard;
    var start := WrittenBoard(r.start);
    WrittenLinesReadBack(start, MovesOf(r.moves));
    var lines := MoveLines(texts, r.moves);
    forall i | 0 <= i < |r.moves|
      ensures lines[2 * i] == texts[i] && lines[2 * i + 1] == "T" + Decimal(r.moves[i].t)
    {
      MoveLinesAt(texts, r.moves, i);
    }
    assert seq(|r.moves|, i requires 0 <= i < |r.moves| => lines[2 * i]) == texts;
  }

  /** Every record that renders is the format's: its header, the board it starts
      from, the number of setup moves if there are any, each move with its time,
      the command that ended it if one did, the summary and the end; and its
      moves read back. */
  lemma RecordsAreInOrder(r: GameRecord, setup: nat) returns (moves: seq<string>)
    requires RecordLines(r).Success? && LeadingSetup(r.moves, setup)
    ensures r.ending in ENDING_WORDS && forall g: GameResult :: g in RESULT_WORDS
    ensures IsRecord(r, setup, moves, RecordLines(r).value) && MovesReadBack(r, moves)
  {
    hide WrittenMoves, Decimal, WrittenPosition, SummaryLine, ENDING_COMMANDS, ENDING_WORDS, RESULT_WORDS,
      MovesReadBack, MoveLines, HeaderTable, Kept, Header, Trailer;
    var texts := WrittenMoves(r.start, MovesOf(r.moves)).value;
    moves := MoveLines(texts, r.moves);
    MoveLinesReadBack(r, texts);
    HeaderInOrder(r);
    TrailerInOrder(r);
    OneLeadingSetup(r.moves, setup);
    hide MovesOf, SetupCount;
    var front := Kept(HeaderTable(r)) + WrittenPosition(WrittenBoard(r.start), WhenHeld) + BuoyComment(setup) + moves;
    LastPieces(front, if r.ending in ENDING_COMMANDS then [ENDING_COMMANDS[r.ending]] else [],
               [SummaryLine(r.ending, r.blackName, r.whiteName, r.results), "'$END_TIME:" + r.ended]);
  }

  lemma LastPieces(front: seq<string>, command: seq<string>, last: seq<string>)
    ensures front + (command + last) == front + command + last
  {
  }

  lemma OneLeadingSetup(moves: seq<Played>, n: nat)
    requires LeadingSetup(moves, n)
    ensures n == SetupCount(moves)
  {
  }

  /** A record renders exactly when its moves replay from the board it starts
      from, and fails as the writing of them does. */
  lemma RecordsRenderExactly(r: GameRecord)
    ensures Render(r).Success? <==> Replay(WrittenBoard(r.start), MovesOf(r.moves)).Success?
    ensures Render(r).Failure? ==> WriteReplay(WrittenBoard(r.start), MovesOf(r.moves)) == Failure(Render(r).error)
  {
    hide WrittenBoard, Terminated, Opening, MoveLines, Trailer;
    WritingFollowsReplay(WrittenBoard(r.start), MovesOf(r.moves));
  }

  // ------------------------------------------------------------- the text

  /** The lines of a text, each up to its LF. */
  function LinesOf(text: string): (lines: seq<string>)
    ensures forall line :: line in lines ==> '\n' !in line
  {
    var n := UpToLf(text);
    if n == |text| then [] else [text[..n]] + LinesOf(text[n + 1..])
  }

  function UpToLf(text: string): (n: nat)
    ensures n <= |text| && '\n' !in text[..n]
    ensures n < |text| ==> text[n] == '\n'
  {
    if text == "" || text[0] == '\n' then 0
    else
      var n := UpToLf(text[1..]);
      assert text[..n + 1] == [text[0]] + text[1..][..n];
      n + 1
  }

  lemma {:induction false} FirstLine(line: string, rest: string)
    requires '\n' !in line
    ensures UpToLf(line + "\n" + rest) == |line|
  {
    if line != "" {
      assert (line + "\n" + rest)[1..] == line[1..] + "\n" + rest;
      FirstLine(line[1..], rest);
    }
  }

  lemma {:induction false} TerminatedFromTheFront(line: string, lines: seq<string>)
    ensures Terminated([line] + lines) == line + "\n" + Terminated(lines)
  {
    var all := [line] + lines;
    var n := |all| - 1;
    if lines == [] {
      assert all == [line] && all[..0] == [];
      assert Terminated([line]) == Terminated([line][..0]) + line + "\n";
      assert [line][..0] == [];
      assert Terminated([]) == "";
    } else {
      assert all[..n] == [line] + lines[..n - 1];
      TerminatedFromTheFront(line, lines[..n - 1]);
      var front := Terminated(lines[..n - 1]);
      var last := lines[n - 1];
      assert (line + "\n" + front) + last + "\n" == line + "\n" + (front + last + "\n");
    }
  }

  /** The text of a record is its lines, each ended by one LF and nothing else: cut
      at the LFs it is the lines again, if and only if none of them holds one. */
  lemma {:induction false} TextIsItsLines(lines: seq<string>)
    ensures LinesOf(Terminated(lines)) == lines <==> forall line :: line in lines ==> '\n' !in line
  {
    if forall line :: line in lines ==> '\n' !in line {
      CarriedLinesAreCut(lines);
    }
  }

  lemma {:induction false} CarriedLinesAreCut(lines: seq<string>)
    requires forall line :: line in lines ==> '\n' !in line
    ensures LinesOf(Terminated(lines)) == lines
  {
    if lines != [] {
      var line, rest := lines[0], lines[1..];
      assert lines == [line] + rest;
      TerminatedFromTheFront(line, rest);
      CarriedLinesAreCut(rest);
      var text := Terminated(lines);
      FirstLine(line, Terminated(rest));
      assert text[..|line|] == line && text[|line| + 1..] == Terminated(rest);
    }
  }
}
