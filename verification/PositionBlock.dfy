/** The written position and setup of `src/csa/position_block.rs`: printing
    loses nothing, and an encoded setup replays. */
module PositionBlock {
  import opened Wrappers
  import opened Position
  import opened Legality
  import opened LegalityInPlace
  import opened StartSpec
  import opened Numerals
  import opened Notation

  datatype Error =
    | TimeCount(moves: nat, times: nat)
    | Setup(setup: IllegalSetup)
    | Unwritable(index: nat, reason: RenderError)

  /** Two ways to print hands: a line for each side, or only for a side that
      holds something. */
  datatype Hands = Always | WhenHeld

  const EMPTY_CELL := " * "

  // ---------------------------------------------------------------- printing

  function Cell(piece: Option<Piece>): (s: string)
    ensures |s| == 3
  {
    if piece.Some? then [SignOf(piece.value.color)] + LettersOf(piece.value.kind) else EMPTY_CELL
  }

  /** The cells of a rank from file `file` down to file 1. */
  function CellsFrom(p: Position, rank: int, file: int): (s: string)
    requires 1 <= rank <= 9 && 0 <= file <= 9
    ensures |s| == 3 * file
  {
    if file == 0 then "" else Cell(p.PieceAt(Coordinate(file, rank))) + CellsFrom(p, rank, file - 1)
  }

  function Row(p: Position, rank: int): (s: string)
    requires 1 <= rank <= 9
  {
    ['P', DigitText(rank)] + CellsFrom(p, rank, 9)
  }

  /** The tokens of `n` pieces of one kind. */
  function Tokens(kind: HandKind, n: int): (s: string) {
    if n <= 0 then "" else Tokens(kind, n - 1) + "00" + LettersOf(kind.ToPieceKind())
  }

  /** The tokens of the first `k` kinds, in descending order. */
  function HandTokens(hand: Hand, k: nat): (s: string)
    requires k <= 7
  {
    if k == 0 then "" else HandTokens(hand, k - 1) + Tokens(HAND_KINDS[k - 1], CountOf(hand, HAND_KINDS[k - 1]))
  }

  function HandLine(p: Position, color: Color): (s: string) {
    ['P', SignOf(color)] + HandTokens(p.HandOf(color), 7)
  }

  function HandLines(p: Position, color: Color, hands: Hands): (lines: seq<string>) {
    if hands.Always? || |HandLine(p, color)| > 2 then [HandLine(p, color)] else []
  }

  function Rows(p: Position, n: int): (lines: seq<string>)
    requires 0 <= n <= 9
    ensures |lines| == n
  {
    if n == 0 then [] else Rows(p, n - 1) + [Row(p, n)]
  }

  function WrittenPosition(p: Position, hands: Hands): (lines: seq<string>) {
    Rows(p, 9) + HandLines(p, Black, hands) + HandLines(p, White, hands) + [[SignOf(p.turn)]]
  }

  function WrittenBoard(spec: StartSpec): (p: Position) {
    match spec
    case Buoy(_) => HiratePosition()
    case Written(p) => p
  }

  function Diagram(spec: StartSpec): (lines: seq<string>) {
    WrittenPosition(WrittenBoard(spec), WhenHeld)
  }

  // ------------------------------------------------------------------- moves

  datatype Replayed = Replayed(lines: seq<string>, position: Position)

  /** One line per move, each written from the position before it, and the
      position the moves lead to. */
  ghost function WriteReplay(start: Position, moves: seq<Move>): (r: Result<Replayed, Error>)
    ensures r.Success? ==> |r.value.lines| == |moves|
  {
    if moves == [] then Success(Replayed([], start))
    else
      var n := |moves| - 1;
      var before := WriteReplay(start, moves[..n]);
      if before.Failure? then before
      else
        var p := before.value.position;
        match Of(p.turn, moves[n], p)
        case Failure(reason) => Failure(Unwritable(n, reason))
        case Success(w) =>
          match ApplyMove(p, moves[n])
          case Failure(reason) => Failure(Setup(IllegalSetup(n, reason)))
          case Success(next) => Success(Replayed(before.value.lines + [Show(w)], next))
  }

  ghost function WrittenMoves(spec: StartSpec, moves: seq<Move>): (r: Result<seq<string>, Error>)
    ensures r.Success? ==> |r.value| == |moves|
  {
    match WriteReplay(WrittenBoard(spec), moves)
    case Failure(e) => Failure(e)
    case Success(r) => Success(r.lines)
  }

  function SetupOf(spec: StartSpec): (moves: seq<Move>) {
    match spec
    case Buoy(setup) => setup
    case Written(_) => []
  }

  /** `<move>,T<n>`. */
  function MoveEcho(text: string, consumed: nat): (line: string) {
    text + ",T" + Decimal(consumed)
  }

  function Echoes(texts: seq<string>, times: seq<nat>): (lines: seq<string>)
    requires |texts| == |times|
  {
    seq(|texts|, i requires 0 <= i < |texts| => MoveEcho(texts[i], times[i]))
  }

  ghost function Encode(spec: StartSpec, times: seq<nat>): (r: Result<seq<string>, Error>) {
    var setup := SetupOf(spec);
    if |setup| != |times| then Failure(TimeCount(|setup|, |times|))
    else match WrittenMoves(spec, setup)
      case Failure(e) => Failure(e)
      case Success(texts) => Success(WrittenPosition(WrittenBoard(spec), Always) + Echoes(texts, times))
  }

  // -------------------------------------------------------- the source's form

  /** `push_rows`: nine rows, each cell pushed in turn. */
  method PushRows(p: Position, lines: seq<string>) returns (out: seq<string>)
    ensures out == lines + Rows(p, 9)
  {
    hide Row;
    out := lines;
    for rank := 1 to 10
      invariant out == lines + Rows(p, rank - 1)
    {
      var row := PushCells(p, rank);
      out := out + [row];
    }
  }

  /** One rank's row, file 9 down to file 1. */
  method PushCells(p: Position, rank: int) returns (row: string)
    requires 1 <= rank <= 9
    ensures row == Row(p, rank)
  {
    hide Cell;
    row := ['P', DigitText(rank)];
    for file := 9 downto 0
      invariant row + CellsFrom(p, rank, file) == Row(p, rank)
    {
      var cell := Cell(p.PieceAt(Coordinate(file + 1, rank)));
      assert row + CellsFrom(p, rank, file + 1) == (row + cell) + CellsFrom(p, rank, file);
      row := row + cell;
    }
    assert row + CellsFrom(p, rank, 0) == row;
  }

  /** One hand's line: one token pushed per piece held. */
  method PushTokens(p: Position, color: Color) returns (line: string)
    ensures line == HandLine(p, color)
  {
    hide LettersOf;
    var header := ['P', SignOf(color)];
    var hand := p.HandOf(color);
    line := header;
    for k := 0 to 7
      invariant line == header + HandTokens(hand, k)
    {
      var letters := LettersOf(HAND_KINDS[k].ToPieceKind());
      var front := line;
      for n := 0 to CountOf(hand, HAND_KINDS[k])
        invariant line == front + Tokens(HAND_KINDS[k], n)
      {
        line := line + "00";
        line := line + letters;
      }
    }
  }

  /** `push_hands`: Black's line, then White's, where one is written. */
  method PushHands(p: Position, lines: seq<string>, hands: Hands) returns (out: seq<string>)
    ensures out == lines + HandLines(p, Black, hands) + HandLines(p, White, hands)
  {
    out := lines;
    for side := 0 to 2
      invariant out == lines + (if side > 0 then HandLines(p, Black, hands) else [])
                             + (if side > 1 then HandLines(p, White, hands) else [])
    {
      var color := if side == 0 then Black else White;
      var line := PushTokens(p, color);
      if hands.Always? || |line| > 2 {
        out := out + [line];
      }
    }
  }

  /** `written_position`: rows, hand lines, turn line. */
  method PushPosition(p: Position, lines: seq<string>, hands: Hands) returns (out: seq<string>)
    ensures out == lines + WrittenPosition(p, hands)
  {
    out := PushRows(p, lines);
    out := PushHands(p, out, hands);
    out := out + [[SignOf(p.turn)]];
  }

  /** `written_moves`: the loop that writes a move down and then plays it. */
  method WriteMoves(spec: StartSpec, moves: seq<Move>) returns (r: Result<seq<string>, Error>)
    ensures r == WrittenMoves(spec, moves)
  {
    hide Of, Show, Validate;
    var start := WrittenBoard(spec);
    var position := start;
    var lines := [];
    for i := 0 to |moves|
      invariant WriteReplay(start, moves[..i]) == Success(Replayed(lines, position))
    {
      assert moves[..i + 1][..i] == moves[..i];
      var written := Of(position.turn, moves[i], position);
      if written.Failure? {
        WriteRefusalIsFinal(start, moves, i + 1);
        return Failure(Unwritable(i, written.error));
      }
      lines := lines + [Show(written.value)];
      var next := ValidateMove(position, moves[i], Enforced);
      if next.Failure? {
        WriteRefusalIsFinal(start, moves, i + 1);
        return Failure(Setup(IllegalSetup(i, next.error)));
      }
      position := next.value;
    }
    assert moves[..|moves|] == moves;
    return Success(lines);
  }

  /** `encode`. */
  method EncodeStart(spec: StartSpec, times: seq<nat>) returns (r: Result<seq<string>, Error>)
    ensures r == Encode(spec, times)
  {
    var setup := SetupOf(spec);
    if |setup| != |times| {
      return Failure(TimeCount(|setup|, |times|));
    }
    var board := WrittenBoard(spec);
    hide WrittenPosition, Echoes, MoveEcho;
    var lines := PushPosition(board, [], Always);
    assert lines == WrittenPosition(board, Always);
    var texts := WriteMoves(spec, setup);
    if texts.Failure? {
      return Failure(texts.error);
    }
    lines := PushEchoes(texts.value, times, lines);
    return Success(lines);
  }

  method PushEchoes(texts: seq<string>, times: seq<nat>, lines: seq<string>) returns (out: seq<string>)
    requires |texts| == |times|
    ensures out == lines + Echoes(texts, times)
  {
    hide Echoes, MoveEcho;
    out := lines;
    NoEchoes(texts, times);
    for i := 0 to |texts|
      invariant out == lines + Echoes(texts[..i], times[..i])
    {
      OneMoreEcho(texts, times, i);
      out := out + [MoveEcho(texts[i], times[i])];
    }
    assert texts[..|texts|] == texts && times[..|texts|] == times;
  }

  lemma NoEchoes(texts: seq<string>, times: seq<nat>)
    requires |texts| == |times|
    ensures Echoes(texts[..0], times[..0]) == []
  {
  }

  lemma OneMoreEcho(texts: seq<string>, times: seq<nat>, i: nat)
    requires |texts| == |times| && i < |texts|
    ensures Echoes(texts[..i + 1], times[..i + 1]) == Echoes(texts[..i], times[..i]) + [MoveEcho(texts[i], times[i])]
  {
  }

  lemma {:induction false} WriteRefusalIsFinal(start: Position, moves: seq<Move>, n: nat)
    requires n <= |moves| && WriteReplay(start, moves[..n]).Failure?
    ensures WriteReplay(start, moves) == WriteReplay(start, moves[..n])
  {
    hide Of, Show, ApplyMove;
    if n < |moves| {
      var m := |moves| - 1;
      assert moves[..m][..n] == moves[..n];
      WriteRefusalIsFinal(start, moves[..m], n);
    } else {
      assert moves[..n] == moves;
    }
  }

  // --------------------------------------------------------- setups replay

  /** What cannot be written down cannot be played. */
  lemma UnwritableIsIllegal(p: Position, mv: Move)
    requires Of(p.turn, mv, p).Failure?
    ensures ApplyMove(p, mv).Failure?
  {
  }

  /** Writing a sequence down fails exactly where replaying it fails, with the
      same refusal unless the move could not even be written; and otherwise
      leads to the same position. */
  lemma {:induction false} WritingFollowsReplay(start: Position, moves: seq<Move>)
    ensures WriteReplay(start, moves).Success? <==> Replay(start, moves).Success?
    ensures match WriteReplay(start, moves)
            case Success(r) => r.position == Replay(start, moves).value[|moves|]
            case Failure(Setup(e)) => Replay(start, moves) == Failure(e)
            case Failure(Unwritable(i, _)) => Replay(start, moves).error.index == i
            case Failure(TimeCount(_, _)) => false
  {
    if moves != [] {
      var n := |moves| - 1;
      WritingFollowsReplay(start, moves[..n]);
      if Replay(start, moves[..n]).Success? {
        var p := Replay(start, moves[..n]).value[n];
        if Of(p.turn, moves[n], p).Failure? {
          UnwritableIsIllegal(p, moves[n]);
        }
      }
    }
  }

  /** Why a sequence cannot be written: the reason of its first refused entry,
      whose notation is looked at before the rules are. */
  lemma {:induction false} WritingRefusalNamesTheFirst(start: Position, moves: seq<Move>)
    requires WriteReplay(start, moves).Failure?
    ensures match WriteReplay(start, moves).error
            case Unwritable(i, reason) =>
              && i < |moves| && Replay(start, moves[..i]).Success?
              && var p := Replay(start, moves[..i]).value[i];
                 Of(p.turn, moves[i], p) == Failure(reason)
            case Setup(IllegalSetup(i, reason)) =>
              && i < |moves| && Replay(start, moves[..i]).Success?
              && var p := Replay(start, moves[..i]).value[i];
                 Of(p.turn, moves[i], p).Success? && ApplyMove(p, moves[i]) == Failure(reason)
            case TimeCount(_, _) => false
  {
    hide Of, Show, ApplyMove;
    var n := |moves| - 1;
    WritingFollowsReplay(start, moves[..n]);
    if WriteReplay(start, moves[..n]).Failure? {
      WritingRefusalNamesTheFirst(start, moves[..n]);
      var e := WriteReplay(start, moves[..n]).error;
      var i := if e.Setup? then e.setup.index else e.index;
      assert moves[..n][..i] == moves[..i];
    }
  }

  /** One T-value per move, or no block; a written board needs none, and is its
      own lines. */
  lemma BlocksOfWrittenBoards(spec: StartSpec, times: seq<nat>, p: Position)
    ensures Encode(spec, times).Failure? && Encode(spec, times).error.TimeCount?
       <==> |times| != match spec case Buoy(setup) => |setup| case Written(_) => 0
    ensures Encode(spec, times).Failure? && Encode(spec, times).error.TimeCount?
        ==> Encode(spec, times).error == TimeCount(|SetupOf(spec)|, |times|)
    ensures Encode(Written(p), []) == Success(WrittenPosition(p, Always))
  {
    hide HiratePosition, WrittenPosition;
    assert WriteReplay(p, []).value.lines == [] && Echoes([], []) == [];
    assert WrittenPosition(p, Always) + [] == WrittenPosition(p, Always);
    if spec.Buoy? {
      WritingFollowsReplay(HiratePosition(), spec.setup);
    }
  }

  /** The setup read so far and the position it leads to. */
  datatype Reading = Reading(setup: seq<Move>, position: Position)

  /** What a reader of move texts does: parse, resolve, apply, one at a time. */
  ghost function ReadReplay(start: Position, texts: seq<string>): (r: Option<Reading>) {
    if texts == [] then Some(Reading([], start))
    else
      var n := |texts| - 1;
      match ReadReplay(start, texts[..n])
      case None => None
      case Some(so) =>
        match ParseMove(texts[n])
        case Failure(_) => None
        case Success(w) =>
          match Resolve(w, so.position)
          case Failure(_) => None
          case Success(mv) =>
            match ApplyMove(so.position, mv)
            case Failure(_) => None
            case Success(next) => Some(Reading(so.setup + [mv], next))
  }

  /** The last step of a writing. */
  lemma OneMoreWritten(start: Position, moves: seq<Move>) returns (p: Position, w: WrittenMove)
    requires WriteReplay(start, moves).Success? && moves != []
    ensures var n := |moves| - 1;
            && WriteReplay(start, moves[..n]).Success?
            && p == WriteReplay(start, moves[..n]).value.position
            && Of(p.turn, moves[n], p) == Success(w)
            && ApplyMove(p, moves[n]) == Success(WriteReplay(start, moves).value.position)
            && WriteReplay(start, moves).value.lines == WriteReplay(start, moves[..n]).value.lines + [Show(w)]
  {
    hide Of, Show, ApplyMove;
    var n := |moves| - 1;
    p := WriteReplay(start, moves[..n]).value.position;
    w := Of(p.turn, moves[n], p).value;
  }

  /** The last step of a reading. */
  lemma OneMoreRead(start: Position, texts: seq<string>, text: string, so: Reading, w: WrittenMove, mv: Move,
                    next: Position)
    requires ReadReplay(start, texts) == Some(so)
    requires ParseMove(text) == Success(w) && Resolve(w, so.position) == Success(mv)
    requires ApplyMove(so.position, mv) == Success(next)
    ensures ReadReplay(start, texts + [text]) == Some(Reading(so.setup + [mv], next))
  {
    hide ParseMove, Resolve, ApplyMove;
    assert (texts + [text])[..|texts|] == texts;
  }

  lemma {:induction false} WrittenLinesReadBack(start: Position, moves: seq<Move>)
    requires WriteReplay(start, moves).Success?
    ensures ReadReplay(start, WriteReplay(start, moves).value.lines)
         == Some(Reading(moves, WriteReplay(start, moves).value.position))
  {
    hide Of, Show, ParseMove, Resolve, ApplyMove;
    if moves != [] {
      hide WriteReplay, ReadReplay;
      var n := |moves| - 1;
      var p, w := OneMoreWritten(start, moves);
      WrittenLinesReadBack(start, moves[..n]);
      ShownMovesParse(w);
      WrittenMovesResolve(moves[n], p, w);
      OneMoreRead(start, WriteReplay(start, moves[..n]).value.lines, Show(w), Reading(moves[..n], p), w, moves[n],
                  WriteReplay(start, moves).value.position);
      assert moves == moves[..n] + [moves[n]];
    }
  }

  // ------------------------------------------------- the block as it is read

  const MOVE_TEXT := 7
  const POSITION_LINES := 12

  /** The move text of a transmitted move line, before its `,T`. */
  function MoveField(line: string): (text: string) {
    if |line| < MOVE_TEXT then line else line[..MOVE_TEXT]
  }

  function MoveFields(lines: seq<string>): (texts: seq<string>)
    ensures |texts| == |lines|
  {
    seq(|lines|, i requires 0 <= i < |lines| => MoveField(lines[i]))
  }

  /** The line is `<text>,T<numeral>` and the numeral names `t`. */
  predicate CarriesTime(line: string, t: nat) {
    && |line| > MOVE_TEXT + 2 && line[MOVE_TEXT..MOVE_TEXT + 2] == ",T"
    && AllDigits(line[MOVE_TEXT + 2..]) && ValueOf(line[MOVE_TEXT + 2..]) == t
  }

  lemma ShownMovesAreSevenLong(w: WrittenMove)
    ensures |Show(w)| == MOVE_TEXT
  {
  }

  lemma {:induction false} WrittenLinesAreSevenLong(start: Position, moves: seq<Move>, i: nat)
    requires WriteReplay(start, moves).Success? && i < |moves|
    ensures |WriteReplay(start, moves).value.lines[i]| == MOVE_TEXT
  {
    var n := |moves| - 1;
    if i < n {
      WrittenLinesAreSevenLong(start, moves[..n], i);
    } else {
      var p := WriteReplay(start, moves[..n]).value.position;
      ShownMovesAreSevenLong(Of(p.turn, moves[n], p).value);
    }
    hide Of, Show, ApplyMove;
  }

  lemma EchoesReadBack(text: string, t: nat)
    requires |text| == MOVE_TEXT
    ensures MoveField(MoveEcho(text, t)) == text && CarriesTime(MoveEcho(text, t), t)
  {
    var line := MoveEcho(text, t);
    assert line == text + (",T" + Decimal(t));
    assert line[MOVE_TEXT + 2..] == Decimal(t);
    DecimalRoundTrip(t);
  }

  /** The whole line, its time included, is no move. */
  lemma EchoesAreNotMoves(w: WrittenMove, t: nat)
    ensures ParseMove(MoveEcho(Show(w), t)) == Failure(Trailing)
  {
    ShownMovesAreSevenLong(w);
  }

  lemma WrittenPositionsAreTwelveLines(p: Position)
    ensures |WrittenPosition(p, Always)| == POSITION_LINES
  {
  }

  /** The parts of an encoded block: twelve lines of hirate, then the echoes of
      the written moves. */
  lemma BlockParts(setup: seq<Move>, times: seq<nat>)
    requires Encode(Buoy(setup), times).Success?
    ensures var lines := Encode(Buoy(setup), times).value;
            && |times| == |setup| && |lines| == POSITION_LINES + |setup|
            && WriteReplay(HiratePosition(), setup).Success?
            && lines[..POSITION_LINES] == WrittenPosition(HiratePosition(), Always)
            && MoveFields(lines[POSITION_LINES..]) == WriteReplay(HiratePosition(), setup).value.lines
            && forall i :: 0 <= i < |setup| ==> CarriesTime(lines[POSITION_LINES + i], times[i])
  {
    hide HiratePosition, WriteReplay, WrittenPosition, MoveField, MoveEcho, CarriesTime;
    var head := WrittenPosition(HiratePosition(), Always);
    var texts := WriteReplay(HiratePosition(), setup).value.lines;
    WrittenPositionsAreTwelveLines(HiratePosition());
    var lines := Encode(Buoy(setup), times).value;
    assert lines == head + Echoes(texts, times);
    forall i | 0 <= i < |setup|
      ensures MoveField(lines[POSITION_LINES + i]) == texts[i]
      ensures CarriesTime(lines[POSITION_LINES + i], times[i])
    {
      WrittenLinesAreSevenLong(HiratePosition(), setup, i);
      EchoesReadBack(texts[i], times[i]);
      assert lines[POSITION_LINES + i] == MoveEcho(texts[i], times[i]);
    }
    assert MoveFields(lines[POSITION_LINES..]) == texts;
  }

  /** Every encoded setup replays. A reader of the block finds hirate's twelve
      lines and one line per move, carrying its time; parsing, resolving and
      applying the move texts of the first `i` of them gives back the first `i`
      moves and the `i`-th position of the traversal. */
  lemma EncodedSetupsReplay(setup: seq<Move>, times: seq<nat>, i: nat)
    requires Encode(Buoy(setup), times).Success? && i <= |setup|
    ensures Traverse(Buoy(setup)).Success?
    ensures var lines := Encode(Buoy(setup), times).value;
            && |lines| == POSITION_LINES + |setup| && |times| == |setup|
            && lines[..POSITION_LINES] == WrittenPosition(HiratePosition(), Always)
            && (i < |setup| ==> CarriesTime(lines[POSITION_LINES + i], times[i]))
            && ReadReplay(HiratePosition(), MoveFields(lines[POSITION_LINES..POSITION_LINES + i]))
            == Some(Reading(setup[..i], Traverse(Buoy(setup)).value[i]))
  {
    hide HiratePosition, MoveField, CarriesTime, Encode, WriteReplay, Replay, ReadReplay, WrittenPosition;
    BlockParts(setup, times);
    WritingFollowsReplay(HiratePosition(), setup);
    WritingIsPrefixStable(HiratePosition(), setup, i);
    ReplayIsPrefixStable(HiratePosition(), setup, i);
    WritingFollowsReplay(HiratePosition(), setup[..i]);
    WrittenLinesReadBack(HiratePosition(), setup[..i]);
    var rest := Encode(Buoy(setup), times).value[POSITION_LINES..];
    assert MoveFields(rest)[..i] == MoveFields(rest[..i]);
    assert rest[..i] == Encode(Buoy(setup), times).value[POSITION_LINES..POSITION_LINES + i];
  }

  /** The whole block read: the setup itself, and the position it decodes to. */
  lemma BlocksDecode(setup: seq<Move>, times: seq<nat>)
    requires Encode(Buoy(setup), times).Success?
    ensures Decode(Buoy(setup)).Success?
    ensures ReadReplay(HiratePosition(), MoveFields(Encode(Buoy(setup), times).value[POSITION_LINES..]))
         == Some(Reading(setup, Decode(Buoy(setup)).value))
  {
    hide HiratePosition, MoveFields, Encode, ReadReplay, Replay, WrittenPosition;
    EncodedSetupsReplay(setup, times, |setup|);
    var lines := Encode(Buoy(setup), times).value;
    assert setup[..|setup|] == setup;
    assert lines[POSITION_LINES..|lines|] == lines[POSITION_LINES..];
  }

  /** A block names one setup and one list of times. */
  lemma BlocksAreUnambiguous(setup: seq<Move>, times: seq<nat>, other: seq<Move>, otherTimes: seq<nat>)
    requires Encode(Buoy(setup), times).Success?
    requires Encode(Buoy(other), otherTimes) == Encode(Buoy(setup), times)
    ensures other == setup && otherTimes == times
  {
    hide HiratePosition, MoveFields, Encode, ReadReplay, Decode, WriteReplay, WrittenPosition;
    BlocksDecode(setup, times);
    BlocksDecode(other, otherTimes);
    BlockParts(setup, times);
    BlockParts(other, otherTimes);
    assert forall i :: 0 <= i < |times| ==> otherTimes[i] == times[i];
  }

  /** A buoy encodes, with one T-value per move, exactly when it decodes; and
      when it does not, both name the same entry. */
  lemma EncodingAgreesWithDecoding(setup: seq<Move>, times: seq<nat>)
    requires |times| == |setup|
    ensures Encode(Buoy(setup), times).Success? <==> Decode(Buoy(setup)).Success?
    ensures match Encode(Buoy(setup), times)
            case Success(_) => true
            case Failure(Setup(e)) => Decode(Buoy(setup)) == Failure(e)
            case Failure(Unwritable(i, _)) => Decode(Buoy(setup)).error.index == i
            case Failure(TimeCount(_, _)) => false
  {
    hide HiratePosition;
    WritingFollowsReplay(HiratePosition(), setup);
  }

  /** Writing more moves keeps the lines already written. */
  lemma {:induction false} WritingIsPrefixStable(start: Position, moves: seq<Move>, n: nat)
    requires n <= |moves| && WriteReplay(start, moves).Success?
    ensures WriteReplay(start, moves[..n]).Success?
    ensures WriteReplay(start, moves[..n]).value.lines == WriteReplay(start, moves).value.lines[..n]
  {
    hide Of, Show, ApplyMove;
    var all := WriteReplay(start, moves).value.lines;
    if n < |moves| {
      var m := |moves| - 1;
      assert moves[..m][..n] == moves[..n];
      WritingIsPrefixStable(start, moves[..m], n);
      var before := WriteReplay(start, moves[..m]).value.lines;
      assert all[..m] == before;
      assert all[..n] == before[..n];
    } else {
      assert moves[..n] == moves && all[..n] == all;
    }
  }
}
