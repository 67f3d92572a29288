/** Written moments (`src/stamp.rs`) and their parser (`src/config/timestamp.rs`).
    A moment is a count of nanoseconds since the epoch. */
module Timestamps {
  import opened Wrappers
  import opened Numerals
  import opened Calendar

  const DAY := 86400
  const NANOS := 1_000_000_000
  /** The first second of year 10000. */
  const HORIZON := 253_402_300_800

  // ---------------------------------------------------------------- writing

  datatype Civil = Civil(date: Date, hour: int, minute: int, second: int)

  /** Whole seconds since the epoch; a clock before the epoch reads as the epoch. */
  function WholeSeconds(at: int): (s: int)
    ensures s >= 0
  {
    if at >= 0 then at / NANOS else 0
  }

  function CivilOf(at: int): (c: Civil)
    ensures c.date.year >= 1970 && ValidDate(c.date)
    ensures 0 <= c.hour < 24 && 0 <= c.minute < 60 && 0 <= c.second < 60
  {
    var seconds := WholeSeconds(at);
    var within := seconds % DAY;
    DaysRoundTrip(seconds / DAY);
    FromTheEpochOn(seconds / DAY);
    Civil(CivilFromDays(seconds / DAY), within / 3600, (within / 60) % 60, within % 60)
  }

  /** Year, month, day, hour, minute, second at fixed widths, with separators. */
  function Format(c: Civil, dash: string, middle: string, colon: string, tail: string): (s: string)
    requires c.date.year >= 0 && c.date.month >= 0 && c.date.day >= 0
    requires c.hour >= 0 && c.minute >= 0 && c.second >= 0
  {
    Padded(c.date.year, 4) + (dash + (Padded(c.date.month, 2) + (dash + (Padded(c.date.day, 2)
    + (middle + (Padded(c.hour, 2) + (colon + (Padded(c.minute, 2) + (colon + (Padded(c.second, 2) + tail))))))))))
  }

  /** `yyyy/MM/dd HH:mm:ss`, a record's stamps. */
  function Stamp(at: int): (s: string) {
    Format(CivilOf(at), "/", " ", ":", "")
  }

  /** `yyyy-MM-ddTHH:mm:ssZ`. */
  function Rfc3339(at: int): (s: string) {
    Format(CivilOf(at), "-", "T", ":", "Z")
  }

  /** `YYYYMMDDTHHMMSSZ`, a filename. */
  function Compact(at: int): (s: string) {
    Format(CivilOf(at), "", "T", "", "Z")
  }

  // ---------------------------------------------------------------- parsing

  datatype TimestampError =
    | Shape
    | MissingOffset
    | OutOfRange(field: string, value: int)
    | Unrepresentable

  predicate IsAscii(s: string) {
    forall c :: c in s ==> c as int < 128
  }

  /** A field read as a number, when nothing but digits is in it. */
  function Number(s: string): (r: Result<int, TimestampError>) {
    if AllDigits(s) then Success(ValueOf(s)) else Failure(Shape)
  }

  function Checked(field: string, value: int, low: int, high: int): (r: Result<int, TimestampError>) {
    if low <= value <= high then Success(value) else Failure(OutOfRange(field, value))
  }

  /** How many digits the text begins with. */
  function LeadingDigits(s: string): (n: nat)
    ensures n <= |s|
  {
    if s == "" || !IsDigit(s[0]) then 0 else 1 + LeadingDigits(s[1..])
  }

  /** The text after an optional fraction, whose digits are discarded. */
  function AfterFraction(s: string): (r: Result<string, TimestampError>) {
    if s == "" || s[0] != '.' then Success(s)
    else
      var digits := LeadingDigits(s[1..]);
      if digits == 0 then Failure(Shape) else Success(s[1 + digits..])
  }

  /** `±hh:mm` or `Z`, in seconds east of UTC. */
  function Zone(s: string): (r: Result<int, TimestampError>) {
    if s == "Z" || s == "z" then Success(0)
    else if |s| != 6 || s[3] != ':' then Failure(MissingOffset)
    else if s[0] != '+' && s[0] != '-' then Failure(MissingOffset)
    else
      var sign := if s[0] == '+' then 1 else -1;
      var hours :- Number(s[1..3]);
      var minutes :- Number(s[4..6]);
      var _ :- Checked("offset hour", hours, 0, 23);
      var _ :- Checked("offset minute", minutes, 0, 59);
      Success(sign * (hours * 3600 + minutes * 60))
  }

  function Offset(s: string): (r: Result<int, TimestampError>) {
    var rest :- AfterFraction(s);
    Zone(rest)
  }

  /** The seconds a platform's clock can hold, first and last. */
  datatype Clock = Clock(first: int, last: int)

  const SIXTY_FOUR_BITS := Clock(-0x8000_0000_0000_0000, 0x7FFF_FFFF_FFFF_FFFF)

  /** The moment, where the platform's clock holds it. */
  function Epoch(seconds: int, clock: Clock): (r: Result<int, TimestampError>) {
    if clock.first <= seconds <= clock.last then Success(seconds * NANOS) else Failure(Unrepresentable)
  }

  /** The separators of the fixed part stand where they must. */
  predicate Shaped(s: string) {
    && IsAscii(s) && |s| >= 19
    && s[4] == '-' && s[7] == '-' && (s[10] == 'T' || s[10] == 't')
    && s[13] == ':' && s[16] == ':'
  }

  /** The six numbers of the fixed part, read before any range is checked. */
  function Numbers(s: string): (r: Result<Civil, TimestampError>)
    requires |s| >= 19
  {
    var year :- Number(s[0..4]);
    var month :- Number(s[5..7]);
    var day :- Number(s[8..10]);
    var hour :- Number(s[11..13]);
    var minute :- Number(s[14..16]);
    var second :- Number(s[17..19]);
    Success(Civil(Date(year, month, day), hour, minute, second))
  }

  function CheckedCivil(c: Civil): (r: Result<Civil, TimestampError>) {
    var _ :- Checked("month", c.date.month, 1, 12);
    var _ :- Checked("day", c.date.day, 1, DaysInMonth(c.date.year, c.date.month));
    var _ :- Checked("hour", c.hour, 0, 23);
    var _ :- Checked("minute", c.minute, 0, 59);
    var _ :- Checked("second", c.second, 0, 60);
    Success(c)
  }

  function SecondsOf(c: Civil): (n: int) {
    DaysFromCivil(c.date.year, c.date.month, c.date.day) * DAY + c.hour * 3600 + c.minute * 60 + c.second
  }

  /** The second a text names, on any platform. */
  function NamedSecond(s: string): (r: Result<int, TimestampError>) {
    if !Shaped(s) then Failure(Shape)
    else
      var numbers :- Numbers(s);
      var offset :- Offset(s[19..]);
      var civil :- CheckedCivil(numbers);
      Success(SecondsOf(civil) - offset)
  }

  function ParseOn(s: string, clock: Clock): (r: Result<int, TimestampError>) {
    var seconds :- NamedSecond(s);
    Epoch(seconds, clock)
  }

  /** Parsing, on a platform whose clock counts seconds in 64 bits. */
  function Parse(s: string): (r: Result<int, TimestampError>) {
    ParseOn(s, SIXTY_FOUR_BITS)
  }

  // --------------------------------------------------- the fields of a moment

  lemma KnownDays()
    ensures DaysFromCivil(1970, 1, 1) == 0 && DaysFromCivil(10000, 1, 1) == 2932897
  {
  }

  lemma FromTheEpochOn(days: int)
    requires days >= 0
    ensures CivilFromDays(days).year >= 1970
  {
    hide CivilFromDays, DaysFromCivil;
    KnownDays();
    DatesRoundTrip(Date(1970, 1, 1));
    CalendarKeepsOrder(days, 0);
  }

  /** Up to the horizon a year has four digits. */
  lemma UpToTheHorizon(at: int)
    requires WholeSeconds(at) < HORIZON
    ensures CivilOf(at).date.year <= 9999
  {
    hide CivilFromDays, DaysFromCivil;
    KnownDays();
    DatesRoundTrip(Date(10000, 1, 1));
    CalendarKeepsOrder(WholeSeconds(at) / DAY, 2932897);
  }

  /** The fields add up to the second they are taken from. */
  lemma FieldsAddUp(at: int)
    ensures SecondsOf(CivilOf(at)) == WholeSeconds(at)
  {
    hide CivilFromDays, DaysFromCivil;
    DaysRoundTrip(WholeSeconds(at) / DAY);
    TimeOfDayParts(WholeSeconds(at) % DAY);
    hide WholeSeconds;
  }

  /** A moment from the epoch on is within the second its fields name; one before
      the epoch is written as the epoch. */
  lemma FieldsNameTheSecond(at: int)
    ensures var s := SecondsOf(CivilOf(at));
            if at < 0 then s == 0 else s * 1_000_000_000 <= at < (s + 1) * 1_000_000_000
  {
    FieldsAddUp(at);
    hide CivilOf, SecondsOf;
  }

  lemma TimeOfDayParts(within: int)
    requires 0 <= within < DAY
    ensures within == (within / 3600) * 3600 + ((within / 60) % 60) * 60 + within % 60
  {
  }

  predicate EarlierCivil(a: Civil, b: Civil) {
    Earlier(a.date, b.date)
    || (a.date == b.date && (a.hour < b.hour || (a.hour == b.hour
        && (a.minute < b.minute || (a.minute == b.minute && a.second < b.second)))))
  }

  /** Fields compare as moments do, to the second. */
  lemma FieldsKeepOrder(a: int, b: int)
    ensures EarlierCivil(CivilOf(a), CivilOf(b)) <==> WholeSeconds(a) < WholeSeconds(b)
  {
    var i, j := WholeSeconds(a) / DAY, WholeSeconds(b) / DAY;
    CalendarKeepsOrder(i, j);
    CalendarKeepsOrder(j, i);
    hide CivilFromDays;
    TimeOfDayOrder(WholeSeconds(a) % DAY, WholeSeconds(b) % DAY);
  }

  lemma TimeOfDayOrder(a: int, b: int)
    requires 0 <= a < DAY && 0 <= b < DAY
    ensures a < b
       <==> a / 3600 < b / 3600 || (a / 3600 == b / 3600
            && ((a / 60) % 60 < (b / 60) % 60 || ((a / 60) % 60 == (b / 60) % 60 && a % 60 < b % 60)))
  {
  }

  // ------------------------------------------------------------ string order

  lemma {:induction false} NotLessItself(s: string)
    ensures !Less(s, s)
  {
    if s != "" {
      NotLessItself(s[1..]);
    }
  }

  lemma LessAfterSame(s: string, x: string, y: string)
    ensures Less(s + x, s + y) <==> Less(x, y)
  {
    LessByParts(s, x, s, y);
    NotLessItself(s);
  }

  lemma LessAfterNumbers(m: nat, n: nat, w: nat, x: string, y: string)
    requires w >= 1 && m < Power10(w) && n < Power10(w)
    ensures Less(Padded(m, w) + x, Padded(n, w) + y) <==> m < n || (m == n && Less(x, y))
  {
    PaddedFits(m, w);
    PaddedFits(n, w);
    PaddedOrder(m, n, w);
    LessByParts(Padded(m, w), x, Padded(n, w), y);
  }

  /** Formatted fields, whatever the separators, sort as the fields do. */
  lemma FormatKeepsOrder(a: Civil, b: Civil, dash: string, middle: string, colon: string, tail: string)
    requires forall c :: c in {a, b} ==>
      && 0 <= c.date.year <= 9999 && 0 <= c.date.month < 100 && 0 <= c.date.day < 100
      && 0 <= c.hour < 100 && 0 <= c.minute < 100 && 0 <= c.second < 100
    ensures Less(Format(a, dash, middle, colon, tail), Format(b, dash, middle, colon, tail)) <==> EarlierCivil(a, b)
  {
    assert a in {a, b} && b in {a, b};
    assert Power10(1) == 10 && Power10(2) == 100 && Power10(3) == 1000 && Power10(4) == 10000;
    hide Less, Padded, Power10;
    var a6, b6 := Padded(a.second, 2) + tail, Padded(b.second, 2) + tail;
    NotLessItself(tail);
    LessAfterNumbers(a.second, b.second, 2, tail, tail);
    var a5, b5 := Padded(a.minute, 2) + (colon + a6), Padded(b.minute, 2) + (colon + b6);
    LessAfterSame(colon, a6, b6);
    LessAfterNumbers(a.minute, b.minute, 2, colon + a6, colon + b6);
    var a4, b4 := Padded(a.hour, 2) + (colon + a5), Padded(b.hour, 2) + (colon + b5);
    LessAfterSame(colon, a5, b5);
    LessAfterNumbers(a.hour, b.hour, 2, colon + a5, colon + b5);
    var a3, b3 := Padded(a.date.day, 2) + (middle + a4), Padded(b.date.day, 2) + (middle + b4);
    LessAfterSame(middle, a4, b4);
    LessAfterNumbers(a.date.day, b.date.day, 2, middle + a4, middle + b4);
    var a2, b2 := Padded(a.date.month, 2) + (dash + a3), Padded(b.date.month, 2) + (dash + b3);
    LessAfterSame(dash, a3, b3);
    LessAfterNumbers(a.date.month, b.date.month, 2, dash + a3, dash + b3);
    LessAfterSame(dash, a2, b2);
    LessAfterNumbers(a.date.year, b.date.year, 4, dash + a2, dash + b2);
  }

  /** Whole seconds from the epoch, where a moment before it counts as it. */
  function SecondOf(at: int): (s: int) {
    if at < 0 then 0 else at / 1_000_000_000
  }

  /** Up to year 9999, string order of written moments is time order to the
      second, in each of the three forms. */
  lemma StampsSortByTime(a: int, b: int)
    requires a < 253_402_300_800 * 1_000_000_000 && b < 253_402_300_800 * 1_000_000_000
    ensures Less(Compact(a), Compact(b)) <==> SecondOf(a) < SecondOf(b)
    ensures Less(Rfc3339(a), Rfc3339(b)) <==> SecondOf(a) < SecondOf(b)
    ensures Less(Stamp(a), Stamp(b)) <==> SecondOf(a) < SecondOf(b)
  {
    hide Less, Compact, Rfc3339, Stamp;
    FormsKeepOrder(a, b);
  }

  lemma FormsKeepOrder(a: int, b: int)
    requires WholeSeconds(a) < HORIZON && WholeSeconds(b) < HORIZON
    ensures Less(Compact(a), Compact(b)) <==> WholeSeconds(a) < WholeSeconds(b)
    ensures Less(Rfc3339(a), Rfc3339(b)) <==> WholeSeconds(a) < WholeSeconds(b)
    ensures Less(Stamp(a), Stamp(b)) <==> WholeSeconds(a) < WholeSeconds(b)
  {
    hide CivilOf, WholeSeconds, Less, Format, EarlierCivil;
    UpToTheHorizon(a);
    UpToTheHorizon(b);
    FieldsKeepOrder(a, b);
    var c, d := CivilOf(a), CivilOf(b);
    assert forall e :: e in {c, d} ==> 0 <= e.date.year <= 9999 && 0 <= e.date.month < 100 && 0 <= e.date.day < 100;
    hide ValidDate;
    FormatKeepsOrder(c, d, "", "T", "", "Z");
    FormatKeepsOrder(c, d, "-", "T", ":", "Z");
    FormatKeepsOrder(c, d, "/", " ", ":", "");
  }

  // -------------------------------------------------------------- round trip

  lemma AsciiParts(a: string, b: string)
    ensures IsAscii(a + b) <==> IsAscii(a) && IsAscii(b)
  {
    assert forall c :: c in a + b <==> c in a || c in b;
  }

  /** Where each field of an RFC 3339 form stands. */
  lemma FormatSlices(c: Civil)
    requires 0 <= c.date.year <= 9999 && 0 <= c.date.month < 100 && 0 <= c.date.day < 100
    requires 0 <= c.hour < 100 && 0 <= c.minute < 100 && 0 <= c.second < 100
    ensures var s := Format(c, "-", "T", ":", "Z");
            && |s| == 20 && Shaped(s) && s[19..] == "Z"
            && Numbers(s) == Success(c)
  {
    assert Power10(1) == 10 && Power10(2) == 100 && Power10(3) == 1000 && Power10(4) == 10000;
    PaddedFits(c.date.year, 4);
    PaddedFits(c.date.month, 2);
    PaddedFits(c.date.day, 2);
    PaddedFits(c.hour, 2);
    PaddedFits(c.minute, 2);
    PaddedFits(c.second, 2);
    FormatParts(Padded(c.date.year, 4), Padded(c.date.month, 2), Padded(c.date.day, 2),
                Padded(c.hour, 2), Padded(c.minute, 2), Padded(c.second, 2));
    hide Padded, Power10, ValueOf, Shaped;
  }

  /** Two texts one after the other, cut where they meet. */
  lemma CutAt(a: string, b: string, from: nat, to: nat)
    requires |a| <= from <= to <= |a + b|
    ensures (a + b)[from..to] == b[from - |a|..to - |a|]
  {
  }

  lemma ClockParts(h: string, mi: string, se: string)
    requires |h| == |mi| == |se| == 2
    ensures var t := h + (":" + (mi + (":" + (se + "Z"))));
            && |t| == 9 && t[2] == t[5] == ':' && t[8] == 'Z'
            && t[0..2] == h && t[3..5] == mi && t[6..8] == se && t[0..8] == h + ":" + mi + ":" + se
  {
  }

  /** The parts of the long form. */
  lemma LongFormParts(y: string, mo: string, d: string, h: string, mi: string, se: string)
    requires |y| == 4 && |mo| == |d| == |h| == |mi| == |se| == 2
    ensures var s := y + ("-" + (mo + ("-" + (d + ("T" + (h + (":" + (mi + (":" + (se + "Z"))))))))));
            && |s| == 20 && s[4] == s[7] == '-' && s[10] == 'T' && s[13] == s[16] == ':' && s[19] == 'Z'
            && s[..4] == y && s[5..7] == mo && s[8..10] == d && s[11..13] == h && s[14..16] == mi && s[17..19] == se
            && s[11..19] == h + ":" + mi + ":" + se
  {
    var t := h + (":" + (mi + (":" + (se + "Z"))));
    ClockParts(h, mi, se);
    DateParts(y, mo, d, t);
    var date := y + ("-" + (mo + ("-" + (d + "T"))));
    var s := y + ("-" + (mo + ("-" + (d + ("T" + t)))));
    assert s == date + t by { DateThenClock(y, mo, d, t); }
    hide *;
    CutAt(date, t, 11, 13);
    CutAt(date, t, 14, 16);
    CutAt(date, t, 17, 19);
    CutAt(date, t, 11, 19);
    assert s[13] == t[2] && s[16] == t[5] && s[19] == t[8];
  }

  lemma DateThenClock(y: string, mo: string, d: string, t: string)
    ensures y + ("-" + (mo + ("-" + (d + ("T" + t))))) == y + ("-" + (mo + ("-" + (d + "T")))) + t
  {
  }

  lemma DateParts(y: string, mo: string, d: string, t: string)
    requires |y| == 4 && |mo| == |d| == 2
    ensures var s := y + ("-" + (mo + ("-" + (d + ("T" + t)))));
            && |s| == 11 + |t| && |y + ("-" + (mo + ("-" + (d + "T"))))| == 11
            && s[4] == s[7] == '-' && s[10] == 'T' && s[..4] == y && s[5..7] == mo && s[8..10] == d
  {
  }

  lemma FormatParts(y: string, mo: string, d: string, h: string, mi: string, se: string)
    requires AllDigits(y) && AllDigits(mo) && AllDigits(d) && AllDigits(h) && AllDigits(mi) && AllDigits(se)
    requires |y| == 4 && |mo| == |d| == |h| == |mi| == |se| == 2
    ensures var s := y + ("-" + (mo + ("-" + (d + ("T" + (h + (":" + (mi + (":" + (se + "Z"))))))))));
            && |s| == 20 && Shaped(s) && s[19..] == "Z"
            && s[0..4] == y && s[5..7] == mo && s[8..10] == d
            && s[11..13] == h && s[14..16] == mi && s[17..19] == se
  {
    LongFormParts(y, mo, d, h, mi, se);
    assert forall c: char :: IsDigit(c) ==> c as int < 128;
    var time := h + (":" + (mi + (":" + (se + "Z"))));
    assert IsAscii(time);
    assert IsAscii(y + ("-" + (mo + ("-" + (d + ("T" + time))))));
    hide IsAscii, AllDigits;
  }

  /** A written moment parses to the whole second it lies in: for a moment up to
      year 9999 the parse is a whole number of seconds, not after the moment and
      less than a second before it, and the epoch for a moment before the epoch. */
  lemma WrittenMomentsParse(at: int)
    requires at < 253_402_300_800 * 1_000_000_000
    ensures Parse(Rfc3339(at)).Success?
    ensures var t := Parse(Rfc3339(at)).value;
            t % 1_000_000_000 == 0 && if at < 0 then t == 0 else t <= at < t + 1_000_000_000
  {
    hide Parse, Rfc3339;
    WrittenFormParses(at);
  }

  lemma WrittenFormParses(at: int)
    requires WholeSeconds(at) < HORIZON
    ensures Parse(Rfc3339(at)) == Success(WholeSeconds(at) * NANOS)
  {
    hide CivilOf, Format, Shaped, Numbers, SecondsOf, WholeSeconds;
    UpToTheHorizon(at);
    FieldsAddUp(at);
    FormatSlices(CivilOf(at));
    assert Offset("Z") == Success(0);
    assert CheckedCivil(CivilOf(at)) == Success(CivilOf(at));
  }

  /** One moment in three forms: the same digits, with hyphens, a `T`, colons and
      a `Z`, with slashes, a space and colons, or with a `T` and a `Z` alone. */
  lemma OneMomentThreeForms(at: int)
    requires at < 253_402_300_800 * 1_000_000_000
    ensures var s := Rfc3339(at);
            && |s| == 20 && s[4] == s[7] == '-' && s[10] == 'T' && s[13] == s[16] == ':' && s[19] == 'Z'
            && Stamp(at) == s[..4] + "/" + s[5..7] + "/" + s[8..10] + " " + s[11..19]
            && Compact(at) == s[..4] + s[5..7] + s[8..10] + "T" + s[11..13] + s[14..16] + s[17..19] + "Z"
  {
    UpToTheHorizon(at);
    var c := CivilOf(at);
    hide CivilOf, WholeSeconds;
    FieldsFit(c);
    var y, mo, d := Padded(c.date.year, 4), Padded(c.date.month, 2), Padded(c.date.day, 2);
    var h, mi, se := Padded(c.hour, 2), Padded(c.minute, 2), Padded(c.second, 2);
    FormsOf(at, c);
    hide Padded, Stamp, Rfc3339, Compact;
    LongFormParts(y, mo, d, h, mi, se);
    SlashForm(y, mo, d, h, mi, se);
    BareForm(y, mo, d, h, mi, se);
  }

  lemma FormsOf(at: int, c: Civil)
    requires c == CivilOf(at)
    ensures Stamp(at) == Format(c, "/", " ", ":", "")
    ensures Rfc3339(at) == Format(c, "-", "T", ":", "Z") && Compact(at) == Format(c, "", "T", "", "Z")
  {
  }

  lemma SlashForm(y: string, mo: string, d: string, h: string, mi: string, se: string)
    ensures y + ("/" + (mo + ("/" + (d + (" " + (h + (":" + (mi + (":" + (se + ""))))))))))
         == y + "/" + mo + "/" + d + " " + (h + ":" + mi + ":" + se)
  {
  }

  lemma BareForm(y: string, mo: string, d: string, h: string, mi: string, se: string)
    ensures y + ("" + (mo + ("" + (d + ("T" + (h + ("" + (mi + ("" + (se + "Z"))))))))))
         == y + mo + d + "T" + h + mi + se + "Z"
  {
  }

  lemma FieldsFit(c: Civil)
    requires 0 <= c.date.year <= 9999 && 0 <= c.date.month < 100 && 0 <= c.date.day < 100
    requires 0 <= c.hour < 100 && 0 <= c.minute < 100 && 0 <= c.second < 100
    ensures |Padded(c.date.year, 4)| == 4 && |Padded(c.date.month, 2)| == |Padded(c.date.day, 2)| == 2
    ensures |Padded(c.hour, 2)| == |Padded(c.minute, 2)| == |Padded(c.second, 2)| == 2
  {
    assert Power10(1) == 10 && Power10(2) == 100 && Power10(3) == 1000 && Power10(4) == 10000;
    PaddedFits(c.date.year, 4);
    PaddedFits(c.date.month, 2);
    PaddedFits(c.date.day, 2);
    PaddedFits(c.hour, 2);
    PaddedFits(c.minute, 2);
    PaddedFits(c.second, 2);
  }

  // ----------------------------------------------------------------- offsets

  /** `.` and one digit or more, or nothing. */
  predicate IsFraction(f: string) {
    f == "" || (|f| >= 2 && f[0] == '.' && AllDigits(f[1..]))
  }

  function OffsetForm(east: bool, hours: nat, minutes: nat): (s: string) {
    [if east then '+' else '-'] + Padded(hours, 2) + ":" + Padded(minutes, 2)
  }

  function SecondsEast(east: bool, hours: nat, minutes: nat): (s: int) {
    if east then hours * 3600 + minutes * 60 else -(hours * 3600 + minutes * 60)
  }

  lemma {:induction false} LeadingDigitsStop(digits: string, rest: string)
    requires AllDigits(digits) && rest != "" && !IsDigit(rest[0])
    ensures LeadingDigits(digits + rest) == |digits|
  {
    if digits == "" {
      assert digits + rest == rest;
    } else {
      assert (digits + rest)[1..] == digits[1..] + rest;
      LeadingDigitsStop(digits[1..], rest);
    }
  }

  /** A fraction is read and discarded. */
  lemma FractionIsDiscarded(f: string, zone: string)
    requires IsFraction(f) && zone != "" && !IsDigit(zone[0]) && zone[0] != '.'
    ensures Offset(f + zone) == Zone(zone)
  {
    if f == "" {
      assert f + zone == zone;
    } else {
      assert (f + zone)[1..] == f[1..] + zone;
      LeadingDigitsStop(f[1..], zone);
      assert (f + zone)[|f|..] == zone;
    }
  }

  lemma TwoDigitsRead(n: nat)
    requires n <= 99
    ensures var t := Padded(n, 2); |t| == 2 && AllDigits(t) && Number(t) == Success(n)
  {
    assert Power10(1) == 10 && Power10(2) == 100;
    PaddedFits(n, 2);
  }

  lemma OffsetFormReads(east: bool, hours: nat, minutes: nat)
    requires hours <= 23 && minutes <= 59
    ensures var z := OffsetForm(east, hours, minutes);
            && |z| == 6 && IsAscii(z) && !IsDigit(z[0]) && z[0] != '.'
            && Zone(z) == Success(SecondsEast(east, hours, minutes))
  {
    TwoDigitsRead(hours);
    TwoDigitsRead(minutes);
    hide Padded, Number;
    var z := OffsetForm(east, hours, minutes);
    assert z[1..3] == Padded(hours, 2) && z[4..6] == Padded(minutes, 2);
  }

  lemma {:induction false} ValueIsBounded(s: string)
    requires AllDigits(s)
    ensures 0 <= ValueOf(s) < Power10(|s|)
  {
    if s != "" {
      ValueIsBounded(s[..|s| - 1]);
      assert IsDigit(s[|s| - 1]);
    }
  }

  /** The first and the last second a four-digit year can name, at the offsets
      that reach furthest. */
  const EARLIEST := -62167305540
  const LATEST := 253402387140

  lemma FirstAndLastDay()
    ensures DaysFromCivil(0, 1, 1) == -719528 && DaysFromCivil(9999, 12, 31) == 2932896
    ensures ValidDate(Date(0, 1, 1)) && ValidDate(Date(9999, 12, 31))
  {
  }

  lemma ParsedDaysAreBounded(d: Date)
    requires 0 <= d.year <= 9999 && ValidDate(d)
    ensures -719528 <= DaysFromCivil(d.year, d.month, d.day) <= 2932896
  {
    FirstAndLastDay();
    var first, last := Date(0, 1, 1), Date(9999, 12, 31);
    assert d == first || Earlier(first, d);
    assert d == last || Earlier(d, last);
    hide DaysFromCivil, ValidDate, Earlier;
    if d != first {
      LaterDatesCountMore(first, d);
    }
    if d != last {
      LaterDatesCountMore(d, last);
    }
  }

  /** A text names no second outside those bounds. */
  lemma ParsedSecondsAreBounded(s: string, offset: int)
    requires |s| >= 19 && Numbers(s).Success? && CheckedCivil(Numbers(s).value).Success?
    requires -86340 <= offset <= 86340
    ensures EARLIEST <= SecondsOf(Numbers(s).value) - offset <= LATEST
  {
    var c := Numbers(s).value;
    ValueIsBounded(s[0..4]);
    assert Power10(1) == 10 && Power10(2) == 100 && Power10(3) == 1000 && Power10(4) == 10000;
    assert 0 <= c.date.year <= 9999 && ValidDate(c.date);
    hide Numbers, ValueOf, Power10, DaysFromCivil;
    ParsedDaysAreBounded(c.date);
  }

  /** What a text parses to once its offset is known. */
  lemma ParseWithOffset(s: string, offset: int)
    requires |s| >= 19 && Offset(s[19..]) == Success(offset) && -86340 <= offset <= 86340
    ensures Parse(s) == if !Shaped(s) then Failure(Shape)
                        else if Numbers(s).Failure? then Failure(Numbers(s).error)
                        else match CheckedCivil(Numbers(s).value)
                             case Failure(e) => Failure(e)
                             case Success(c) => Success((SecondsOf(c) - offset) * NANOS)
  {
    if Shaped(s) && Numbers(s).Success? && CheckedCivil(Numbers(s).value).Success? {
      ParsedSecondsAreBounded(s, offset);
      assert CheckedCivil(Numbers(s).value).value == Numbers(s).value;
    }
    hide Shaped, Numbers, CheckedCivil, SecondsOf, Epoch, Offset;
  }

  lemma TailOffsets(fraction: string, east: bool, hours: nat, minutes: nat)
    requires IsFraction(fraction) && hours <= 23 && minutes <= 59
    ensures Offset(fraction + OffsetForm(east, hours, minutes)) == Success(SecondsEast(east, hours, minutes))
    ensures Offset(fraction + "Z") == Success(0)
    ensures IsAscii(fraction + OffsetForm(east, hours, minutes)) <==> IsAscii(fraction + "Z")
    ensures -86340 <= SecondsEast(east, hours, minutes) <= 86340
  {
    assert IsAscii("Z") && Zone("Z") == Success(0);
    hide Zone, Offset, OffsetForm, IsFraction, IsAscii;
    OffsetFormReads(east, hours, minutes);
    FractionIsDiscarded(fraction, OffsetForm(east, hours, minutes));
    FractionIsDiscarded(fraction, "Z");
    AsciiParts(fraction, OffsetForm(east, hours, minutes));
    AsciiParts(fraction, "Z");
  }

  lemma ParseOtherTail(fixed: string, a: string, b: string, offset: int)
    requires |fixed| == 19 && (IsAscii(a) <==> IsAscii(b)) && -86340 <= offset <= 86340
    requires Offset(a) == Success(offset) && Offset(b) == Success(0)
    ensures Parse(fixed + a) == match Parse(fixed + b)
                                case Success(t) => Success(t - offset * NANOS)
                                case Failure(e) => Failure(e)
  {
    hide Shaped, Numbers, Offset, CheckedCivil, SecondsOf, Parse, IsAscii;
    SameFixedPart(fixed, a, b);
    ParseWithOffset(fixed + a, offset);
    ParseWithOffset(fixed + b, 0);
  }

  /** An offset form parses as the `Z` form does, minus the offset; whatever
      refuses the one refuses the other. */
  lemma OffsetsShiftTheMoment(fixed: string, fraction: string, east: bool, hours: nat, minutes: nat)
    requires |fixed| == 19 && IsFraction(fraction) && hours <= 23 && minutes <= 59
    ensures Parse(fixed + (fraction + OffsetForm(east, hours, minutes)))
         == match Parse(fixed + (fraction + "Z"))
            case Success(t) => Success(t - SecondsEast(east, hours, minutes) * NANOS)
            case Failure(e) => Failure(e)
  {
    hide *;
    TailOffsets(fraction, east, hours, minutes);
    ParseOtherTail(fixed, fraction + OffsetForm(east, hours, minutes), fraction + "Z",
                   SecondsEast(east, hours, minutes));
  }

  lemma SameFixedPart(fixed: string, a: string, b: string)
    requires |fixed| == 19 && (IsAscii(a) <==> IsAscii(b))
    ensures Shaped(fixed + a) <==> Shaped(fixed + b)
    ensures (fixed + a)[19..] == a && (fixed + b)[19..] == b
    ensures Numbers(fixed + a) == Numbers(fixed + b)
  {
    var s, t := fixed + a, fixed + b;
    AsciiParts(fixed, a);
    AsciiParts(fixed, b);
    assert forall i :: 0 <= i < 19 ==> s[i] == fixed[i] == t[i];
    assert s[0..4] == t[0..4] && s[5..7] == t[5..7] && s[8..10] == t[8..10];
    assert s[11..13] == t[11..13] && s[14..16] == t[14..16] && s[17..19] == t[17..19];
  }

  lemma NamedSecondsAreBounded(s: string)
    requires NamedSecond(s).Success?
    ensures EARLIEST <= NamedSecond(s).value <= LATEST
  {
    ParsedSecondsAreBounded(s, Offset(s[19..]).value);
  }

  const EARLIEST_TEXT := "0000-01-01T00:00:00+23:59"
  const LATEST_TEXT := "9999-12-31T23:59:60-23:59"

  lemma SmallNumerals()
    ensures Number("00") == Success(0) && Number("01") == Success(1) && Number("12") == Success(12)
    ensures Number("23") == Success(23) && Number("31") == Success(31) && Number("59") == Success(59)
    ensures Number("60") == Success(60) && Number("0000") == Success(0) && Number("9999") == Success(9999)
  {
    ValueOfSnoc("00", '0');
    ValueOfSnoc("000", '0');
    ValueOfSnoc("99", '9');
    ValueOfSnoc("999", '9');
    assert "00" + ['0'] == "000" && "000" + ['0'] == "0000" && "99" + ['9'] == "999" && "999" + ['9'] == "9999";
  }

  lemma FieldsOf(s: string, c: Civil)
    requires |s| >= 19
    requires Number(s[0..4]) == Success(c.date.year) && Number(s[5..7]) == Success(c.date.month)
    requires Number(s[8..10]) == Success(c.date.day) && Number(s[11..13]) == Success(c.hour)
    requires Number(s[14..16]) == Success(c.minute) && Number(s[17..19]) == Success(c.second)
    ensures Numbers(s) == Success(c)
  {
    hide Number;
  }

  lemma FurthestOffsets()
    ensures Offset("+23:59") == Success(86340) && Offset("-23:59") == Success(-86340)
  {
    SmallNumerals();
    hide Number;
    assert "+23:59"[1..3] == "23" && "+23:59"[4..6] == "59";
    assert "-23:59"[1..3] == "23" && "-23:59"[4..6] == "59";
  }

  lemma EarliestNumbers()
    ensures var s := EARLIEST_TEXT;
            |s| >= 19 && s[19..] == "+23:59" && Numbers(s) == Success(Civil(Date(0, 1, 1), 0, 0, 0))
  {
    hide Number, Numbers;
    SmallNumerals();
    var s := EARLIEST_TEXT;
    assert s[0..4] == "0000" && s[5..7] == "01" && s[8..10] == "01";
    assert s[11..13] == "00" && s[14..16] == "00" && s[17..19] == "00";
    FieldsOf(s, Civil(Date(0, 1, 1), 0, 0, 0));
  }

  lemma LatestNumbers()
    ensures var s := LATEST_TEXT;
            |s| >= 19 && s[19..] == "-23:59" && Numbers(s) == Success(Civil(Date(9999, 12, 31), 23, 59, 60))
  {
    hide Number, Numbers;
    SmallNumerals();
    var s := LATEST_TEXT;
    assert s[0..4] == "9999" && s[5..7] == "12" && s[8..10] == "31";
    assert s[11..13] == "23" && s[14..16] == "59" && s[17..19] == "60";
    FieldsOf(s, Civil(Date(9999, 12, 31), 23, 59, 60));
  }

  lemma EarliestIsShaped()
    ensures Shaped(EARLIEST_TEXT)
  {
  }

  lemma LatestIsShaped()
    ensures Shaped(LATEST_TEXT)
  {
  }

  lemma BoundsAreNamed()
    ensures NamedSecond(EARLIEST_TEXT) == Success(EARLIEST)
    ensures NamedSecond(LATEST_TEXT) == Success(LATEST)
  {
    EarliestNumbers();
    LatestNumbers();
    FurthestOffsets();
    EarliestIsShaped();
    LatestIsShaped();
    FirstAndLastDay();
    hide EARLIEST_TEXT, LATEST_TEXT, Shaped, Numbers, Offset, DaysFromCivil;
  }

  /** No text is refused as unrepresentable exactly where the platform's clock
      holds every second from the earliest to the latest a text can name. */
  lemma NothingIsUnrepresentable(clock: Clock)
    ensures (forall s :: ParseOn(s, clock) != Failure(Unrepresentable))
       <==> clock.first <= EARLIEST && LATEST <= clock.last
  {
    BoundsAreNamed();
    hide NamedSecond, EARLIEST_TEXT, LATEST_TEXT;
    assert clock.first <= EARLIEST || ParseOn(EARLIEST_TEXT, clock) == Failure(Unrepresentable);
    assert LATEST <= clock.last || ParseOn(LATEST_TEXT, clock) == Failure(Unrepresentable);
    forall s | clock.first <= EARLIEST && LATEST <= clock.last
      ensures ParseOn(s, clock) != Failure(Unrepresentable)
    {
      NamingRefusesOtherwise(s);
      if NamedSecond(s).Success? {
        NamedSecondsAreBounded(s);
      }
    }
  }

  lemma NamingRefusesOtherwise(s: string)
    ensures NamedSecond(s) != Failure(Unrepresentable)
  {
    hide Shaped, SecondsOf, ValueOf, DaysInMonth;
  }
}
