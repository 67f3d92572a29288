/** Line framing (`src/csa/codec.rs`): bounded reads and terminated writes over
    a byte stream. Which bytes are UTF-8 is a parameter. */
module Codec {
  import opened Wrappers

  type Byte = b: int | 0 <= b < 256

  const LF: Byte := 10
  const CR: Byte := 13
  const MAX_LINE_LEN := 2048
  const READ_LIMIT := MAX_LINE_LEN + 2

  datatype Error = LineTooLong | InvalidUtf8 | UnexpectedEof

  type Line = seq<Byte>
  type Utf8 = Line -> bool

  // ---------------------------------------------------------------- one read

  /** How many bytes one bounded read takes: through the first LF, up to the
      limit or the end of the stream. */
  function Taken(data: seq<Byte>, limit: nat): (n: nat)
    ensures n <= |data| && n <= limit
  {
    if data == [] || limit == 0 then 0
    else if data[0] == LF then 1
    else 1 + Taken(data[1..], limit - 1)
  }

  function StripSuffix(s: Line, b: Byte): (r: Option<Line>) {
    if s != [] && s[|s| - 1] == b then Some(s[..|s| - 1]) else None
  }

  /** What a read that took `taken` answers. */
  function Judged(taken: Line, isUtf8: Utf8): (r: Result<Option<Line>, Error>) {
    if taken == [] then Success(None)
    else match StripSuffix(taken, LF)
      case None => Failure(if |taken| == READ_LIMIT then LineTooLong else UnexpectedEof)
      case Some(terminated) =>
        var line := match StripSuffix(terminated, CR) case Some(l) => l case None => terminated;
        if |line| > MAX_LINE_LEN then Failure(LineTooLong)
        else if isUtf8(line) then Success(Some(line))
        else Failure(InvalidUtf8)
  }

  /** The answer of one `read_line` on the rest of a stream. */
  function NextLine(data: seq<Byte>, isUtf8: Utf8): (r: Result<Option<Line>, Error>) {
    Judged(data[..Taken(data, READ_LIMIT)], isUtf8)
  }

  // ------------------------------------------------------------- the objects

  /** Reads lines from a stream of bytes, one bounded read a call. */
  class LineReader {
    const data: seq<Byte>
    const isUtf8: Utf8
    var cursor: nat
    var buf: seq<Byte>

    ghost predicate Valid()
      reads this
    {
      cursor <= |data|
    }

    ghost function Rest(): (r: seq<Byte>)
      requires Valid()
      reads this
    {
      data[cursor..]
    }

    constructor (data: seq<Byte>, isUtf8: Utf8)
      ensures Valid() && this.data == data && this.isUtf8 == isUtf8 && Rest() == data
    {
      this.data := data;
      this.isUtf8 := isUtf8;
      cursor := 0;
      buf := [];
    }

    /** `read_until` through `take`: refills the buffer, advances the stream. */
    method ReadUntil() returns (read: nat)
      requires Valid() && buf == []
      modifies this
      ensures Valid() && read == Taken(old(Rest()), READ_LIMIT)
      ensures cursor == old(cursor) + read && buf == old(Rest())[..read]
    {
      ghost var rest := Rest();
      read := 0;
      var found := false;
      while read < READ_LIMIT && cursor < |data| && !found
        invariant Valid() && cursor == old(cursor) + read && read <= READ_LIMIT
        invariant buf == rest[..read]
        invariant Taken(rest, READ_LIMIT) == read + if found then 0 else Taken(rest[read..], READ_LIMIT - read)
        decreases READ_LIMIT - read
      {
        assert rest[read] == data[cursor] && rest[read..][1..] == rest[read + 1..];
        buf := buf + [data[cursor]];
        found := data[cursor] == LF;
        cursor := cursor + 1;
        read := read + 1;
      }
    }

    /** `read_line`: what the stream holds next, and how far it moves. */
    method ReadLine() returns (r: Result<Option<Line>, Error>)
      requires Valid()
      modifies this
      ensures Valid() && r == NextLine(old(Rest()), isUtf8)
      ensures Rest() == old(Rest())[Taken(old(Rest()), READ_LIMIT)..]
      ensures cursor - old(cursor) <= READ_LIMIT
    {
      buf := [];
      var read := ReadUntil();
      if read == 0 {
        return Success(None);
      }
      var terminated := StripSuffix(buf, LF);
      if terminated.None? {
        return Failure(if read == READ_LIMIT then LineTooLong else UnexpectedEof);
      }
      var stripped := StripSuffix(terminated.value, CR);
      var line := if stripped.Some? then stripped.value else terminated.value;
      if |line| > MAX_LINE_LEN {
        return Failure(LineTooLong);
      }
      if isUtf8(line) {
        return Success(Some(line));
      }
      return Failure(InvalidUtf8);
    }
  }

  /** Writes lines, each terminated with LF in the same write. */
  class LineWriter {
    var written: seq<Byte>
    var buf: seq<Byte>

    constructor ()
      ensures written == []
    {
      written := [];
      buf := [];
    }

    method WriteLine(line: Line)
      modifies this
      ensures written == old(written) + (line + [LF])
    {
      buf := [];
      buf := buf + line;
      buf := buf + [LF];
      written := written + buf;
    }
  }

  // --------------------------------------------------------------- round trip

  /** A line the framing carries unchanged. */
  predicate Carried(line: Line, isUtf8: Utf8) {
    && LF !in line
    && |line| <= MAX_LINE_LEN
    && StripSuffix(line, CR).None?
    && isUtf8(line)
  }

  lemma {:induction false} TakenStopsAtLf(line: Line, rest: seq<Byte>, limit: nat)
    requires LF !in line && |line| < limit
    ensures Taken(line + [LF] + rest, limit) == |line| + 1
  {
    var data := line + [LF] + rest;
    if line != [] {
      assert data[1..] == line[1..] + [LF] + rest;
      TakenStopsAtLf(line[1..], rest, limit - 1);
    }
  }

  lemma {:induction false} TakenHoldsOneLf(data: seq<Byte>, limit: nat)
    ensures LF !in data[..Taken(data, limit)]
         || (Taken(data, limit) > 0 && data[Taken(data, limit) - 1] == LF && LF !in data[..Taken(data, limit) - 1])
  {
    if data != [] && limit > 0 && data[0] != LF {
      TakenHoldsOneLf(data[1..], limit - 1);
      var n := Taken(data[1..], limit - 1);
      assert data[..n + 1] == [data[0]] + data[1..][..n];
      assert n > 0 ==> data[..n] == [data[0]] + data[1..][..n - 1];
    }
  }

  /** A returned line never exceeds the cap, holds no LF, and is the read bytes
      without their terminator. */
  lemma ReturnedLinesAreBounded(data: seq<Byte>, isUtf8: Utf8)
    requires NextLine(data, isUtf8).Success? && NextLine(data, isUtf8).value.Some?
    ensures var line := NextLine(data, isUtf8).value.value;
            && |line| <= MAX_LINE_LEN && LF !in line && isUtf8(line)
            && (data[..Taken(data, READ_LIMIT)] == line + [LF] || data[..Taken(data, READ_LIMIT)] == line + [CR, LF])
  {
    var n := Taken(data, READ_LIMIT);
    TakenHoldsOneLf(data, READ_LIMIT);
    var line := NextLine(data, isUtf8).value.value;
    var taken := data[..n];
    assert taken == taken[..n - 1] + [LF];
    assert taken[..n - 1] == data[..n - 1];
    if line != taken[..n - 1] {
      assert taken[..n - 1] == line + [CR];
    }
  }

  /** Exactly the carried lines come back: a written line is what the next read
      returns, with the stream just past it, if and only if it is carried. */
  lemma LineRoundTrip(line: Line, rest: seq<Byte>, isUtf8: Utf8)
    ensures (var data := line + [LF] + rest;
             Carried(line, isUtf8)
             <==> NextLine(data, isUtf8) == Success(Some(line)) && Taken(data, READ_LIMIT) == |line| + 1)
  {
    var data := line + [LF] + rest;
    assert data[..|line| + 1] == line + [LF];
    assert (line + [LF])[..|line|] == line;
    if Carried(line, isUtf8) {
      TakenStopsAtLf(line, rest, READ_LIMIT);
    } else if NextLine(data, isUtf8) == Success(Some(line)) && Taken(data, READ_LIMIT) == |line| + 1 {
      ReturnedLinesAreBounded(data, isUtf8);
      NotStripped(line);
    }
  }

  /** A line that ends in CR is not what stripping it leaves. */
  lemma NotStripped(line: Line)
    ensures StripSuffix(line, CR).Some? ==> StripSuffix(line, CR).value != line
  {
  }

  // ------------------------------------------------- what each read answers

  /** The first LF stands at `i`. */
  predicate EndsAt(data: seq<Byte>, i: nat) {
    i < |data| && data[i] == 10 && 10 !in data[..i]
  }

  /** The bytes before the terminator, a CR just before it left out. */
  function Content(data: seq<Byte>, i: nat): (line: Line)
    requires i < |data|
  {
    if i > 0 && data[i - 1] == 13 then data[..i - 1] else data[..i]
  }

  lemma {:induction false} TakenThrough(data: seq<Byte>, limit: nat, i: nat)
    requires EndsAt(data, i)
    ensures Taken(data, limit) == if i < limit then i + 1 else limit
  {
    if limit > 0 && i > 0 {
      assert data[0] == data[..i][0];
      assert data[1..][..i - 1] == data[..i][1..];
      TakenThrough(data[1..], limit - 1, i - 1);
    }
  }

  lemma {:induction false} TakenWithout(data: seq<Byte>, limit: nat)
    requires 10 !in data
    ensures Taken(data, limit) == if |data| < limit then |data| else limit
  {
    if data != [] && limit > 0 {
      TakenWithout(data[1..], limit - 1);
    }
  }

  lemma {:induction false} FirstLf(data: seq<Byte>) returns (i: nat)
    requires 10 in data
    ensures EndsAt(data, i)
  {
    if data[0] == 10 {
      i := 0;
    } else {
      i := FirstLf(data[1..]);
      assert data[..i + 1] == [data[0]] + data[1..][..i];
      i := i + 1;
    }
  }

  /** How much of the stream one read takes: through the first LF, or without one
      to its end, but never more than 2050 bytes. */
  lemma ReadsTake(data: seq<Byte>)
    ensures forall i: nat :: EndsAt(data, i) ==> Taken(data, READ_LIMIT) == if i < 2050 then i + 1 else 2050
    ensures 10 !in data ==> Taken(data, READ_LIMIT) == if |data| < 2050 then |data| else 2050
  {
    forall i: nat | EndsAt(data, i) ensures Taken(data, READ_LIMIT) == if i < 2050 then i + 1 else 2050 {
      TakenThrough(data, READ_LIMIT, i);
    }
    if 10 !in data {
      TakenWithout(data, READ_LIMIT);
    }
  }

  /** A line whose LF comes within the limit is judged by its content. */
  lemma TerminatedLinesAnswer(data: seq<Byte>, isUtf8: Utf8, i: nat)
    requires EndsAt(data, i) && i < 2050
    ensures NextLine(data, isUtf8) == if |Content(data, i)| > 2048 then Failure(LineTooLong)
                                      else if isUtf8(Content(data, i)) then Success(Some(Content(data, i)))
                                      else Failure(InvalidUtf8)
  {
    TakenThrough(data, READ_LIMIT, i);
    var taken := data[..i + 1];
    assert taken[|taken| - 1] == 10 && taken[..|taken| - 1] == data[..i];
    if i > 0 {
      assert data[..i][i - 1] == data[i - 1] && data[..i][..i - 1] == data[..i - 1];
    }
  }

  /** Bytes with no LF within the limit are the end of the stream, an unterminated
      end of it, or a line too long. */
  lemma OtherBytesAnswer(data: seq<Byte>, isUtf8: Utf8)
    requires 10 !in data[..if |data| < 2050 then |data| else 2050]
    ensures NextLine(data, isUtf8) == if data == [] then Success(None)
                                      else if |data| < 2050 then Failure(UnexpectedEof)
                                      else Failure(LineTooLong)
  {
    var head := data[..if |data| < 2050 then |data| else 2050];
    forall j | 0 <= j < |head| ensures data[j] != 10 {
      assert data[j] == head[j];
    }
    if 10 in data {
      var i := FirstLf(data);
      TakenThrough(data, READ_LIMIT, i);
    } else {
      TakenWithout(data, READ_LIMIT);
    }
    var taken := data[..Taken(data, READ_LIMIT)];
    assert taken != [] ==> taken[|taken| - 1] in taken;
  }

  function Stream(lines: seq<Line>): (data: seq<Byte>) {
    if lines == [] then [] else lines[0] + [LF] + Stream(lines[1..])
  }

  /** Writing a line after others extends their stream by that line. */
  lemma {:induction false} WritingExtendsTheStream(lines: seq<Line>, line: Line)
    ensures Stream(lines + [line]) == Stream(lines) + (line + [LF])
  {
    if lines == [] {
      assert Stream([line]) == line + [LF] + Stream([]);
    } else {
      assert (lines + [line])[1..] == lines[1..] + [line];
      WritingExtendsTheStream(lines[1..], line);
    }
  }

  /** Reading to the end: the lines, or the first failure. */
  function ReadAll(data: seq<Byte>, isUtf8: Utf8): (r: Result<seq<Line>, Error>)
    decreases |data|
  {
    match NextLine(data, isUtf8)
    case Failure(e) => Failure(e)
    case Success(None) => Success([])
    case Success(Some(line)) =>
      match ReadAll(data[Taken(data, READ_LIMIT)..], isUtf8)
      case Failure(e) => Failure(e)
      case Success(lines) => Success([line] + lines)
  }

  // --------------------------------------------- whole streams, by the objects

  /** Every line written in turn: the bytes are the lines' stream. */
  method WriteLines(writer: LineWriter, lines: seq<Line>)
    modifies writer
    ensures writer.written == old(writer.written) + Stream(lines)
  {
    assert lines[..0] == [];
    for i := 0 to |lines|
      invariant writer.written == old(writer.written) + Stream(lines[..i])
    {
      writer.WriteLine(lines[i]);
      WritingExtendsTheStream(lines[..i], lines[i]);
      assert lines[..i + 1] == lines[..i] + [lines[i]];
    }
    assert lines[..|lines|] == lines;
  }

  /** What `ReadAll` answers after some lines already read. */
  function ReadMore(read: seq<Line>, data: seq<Byte>, isUtf8: Utf8): (r: Result<seq<Line>, Error>) {
    match ReadAll(data, isUtf8)
    case Failure(e) => Failure(e)
    case Success(lines) => Success(read + lines)
  }

  /** Lines read until the stream ends or one is refused. */
  method ReadLines(reader: LineReader) returns (r: Result<seq<Line>, Error>)
    requires reader.Valid()
    modifies reader
    ensures reader.Valid() && r == ReadAll(old(reader.Rest()), reader.isUtf8)
    ensures r.Success? ==> reader.Rest() == []
  {
    hide NextLine;
    var lines := [];
    ghost var all := ReadAll(reader.Rest(), reader.isUtf8);
    assert all.Success? ==> lines + all.value == all.value;
    while true
      invariant reader.Valid()
      invariant ReadMore(lines, reader.Rest(), reader.isUtf8) == all
      decreases |reader.Rest()|
    {
      ghost var rest := reader.Rest();
      AnswersEndOrAdvance(rest, reader.isUtf8);
      var next := reader.ReadLine();
      if next.Failure? {
        return Failure(next.error);
      }
      if next.value.None? {
        assert lines + [] == lines;
        return Success(lines);
      }
      ghost var more := ReadAll(reader.Rest(), reader.isUtf8);
      if more.Success? {
        assert (lines + [next.value.value]) + more.value == lines + ([next.value.value] + more.value);
      }
      lines := lines + [next.value.value];
    }
  }

  /** No line comes only of an empty rest; a line always takes bytes. */
  lemma AnswersEndOrAdvance(data: seq<Byte>, isUtf8: Utf8)
    ensures NextLine(data, isUtf8) == Success(None) ==> data == []
    ensures NextLine(data, isUtf8).Success? && NextLine(data, isUtf8).value.Some? ==> Taken(data, READ_LIMIT) > 0
  {
  }

  /** The lines a written stream reads back as are the lines written, and then
      the end, if and only if every one of them is carried. */
  lemma {:induction false} FramingRoundTrip(lines: seq<Line>, isUtf8: Utf8)
    ensures ReadAll(Stream(lines), isUtf8) == Success(lines) <==> forall line :: line in lines ==> Carried(line, isUtf8)
  {
    if lines != [] {
      var data, rest := Stream(lines), Stream(lines[1..]);
      LineRoundTrip(lines[0], rest, isUtf8);
      FramingRoundTrip(lines[1..], isUtf8);
      assert lines == [lines[0]] + lines[1..];
      assert data[|lines[0]| + 1..] == rest;
      hide NextLine, Carried;
      if ReadAll(data, isUtf8) == Success(lines) {
        ReturnedLinesAreBounded(data, isUtf8);
        assert data[|lines[0]|] == LF;
      }
    }
  }

  /** Lines written by a writer, then read from its bytes by a reader: they come
      back as they were, with the reader at the end of the stream, if and only if
      every one of them is carried. */
  method RelayLines(lines: seq<Line>, isUtf8: Utf8) returns (r: Result<seq<Line>, Error>, atEnd: bool)
    ensures r == Success(lines) <==> forall line :: line in lines ==> Carried(line, isUtf8)
    ensures r.Success? ==> atEnd
  {
    var writer := new LineWriter();
    WriteLines(writer, lines);
    var reader := new LineReader(writer.written, isUtf8);
    FramingRoundTrip(lines, isUtf8);
    assert [] + Stream(lines) == Stream(lines);
    r := ReadLines(reader);
    atEnd := reader.cursor == |reader.data|;
  }
}
