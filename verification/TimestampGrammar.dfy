/** Which texts the timestamp parser reads, what they mean and why it refuses the
    rest (`src/config/timestamp.rs`, lines 47-142), after section 5.6 of RFC 3339. */
module TimestampGrammar {
  import opened Wrappers
  import opened Numerals
  import opened Calendar
  import opened Timestamps

  // ------------------------------------------------------------- the grammar

  /** `dddd-dd-ddTdd:dd:dd` and whatever follows, with either `T`, all in ASCII. */
  predicate WellFixed(s: string) {
    && (forall c :: c in s ==> c as int < 128)
    && |s| >= 19
    && s[4] == '-' && s[7] == '-' && (s[10] == 'T' || s[10] == 't') && s[13] == ':' && s[16] == ':'
    && forall i :: 0 <= i < 19 && i !in {4, 7, 10, 13, 16} ==> '0' <= s[i] <= '9'
  }

  /** A fraction, if any, taken as far as its digits go, and what comes after. */
  predicate Splits(t: string, fraction: string, zone: string) {
    && t == fraction + zone && IsFraction(fraction)
    && (zone != "" ==> if fraction == "" then zone[0] != '.' else !('0' <= zone[0] <= '9'))
  }

  /** A point with no digit after it. */
  predicate BadFraction(t: string) {
    t != "" && t[0] == '.' && (|t| == 1 || !('0' <= t[1] <= '9'))
  }

  predicate Zulu(zone: string) {
    zone == "Z" || zone == "z"
  }

  /** A sign, and a colon where it must be. */
  predicate Signed(zone: string) {
    |zone| == 6 && (zone[0] == '+' || zone[0] == '-') && zone[3] == ':'
  }

  /** `+dd:dd` or `-dd:dd`. */
  predicate Numeric(zone: string) {
    Signed(zone) && AllDigits(zone[1..3]) && AllDigits(zone[4..6])
  }

  /** Hours and minutes of an offset. */
  function ZoneHours(zone: string): (n: int)
    requires |zone| == 6
  {
    ValueOf(zone[1..3])
  }

  function ZoneMinutes(zone: string): (n: int)
    requires |zone| == 6
  {
    ValueOf(zone[4..6])
  }

  predicate ZoneInRange(zone: string) {
    Zulu(zone) || (Numeric(zone) && 0 <= ZoneHours(zone) <= 23 && 0 <= ZoneMinutes(zone) <= 59)
  }

  function ZoneSeconds(zone: string): (n: int)
    requires ZoneInRange(zone)
  {
    if Zulu(zone) then 0
    else if zone[0] == '+' then ZoneHours(zone) * 3600 + ZoneMinutes(zone) * 60
    else -(ZoneHours(zone) * 3600 + ZoneMinutes(zone) * 60)
  }

  /** The numbers in the fixed part. */
  function FieldsAt(s: string): (c: Civil)
    requires |s| >= 19
  {
    Civil(Date(ValueOf(s[0..4]), ValueOf(s[5..7]), ValueOf(s[8..10])),
          ValueOf(s[11..13]), ValueOf(s[14..16]), ValueOf(s[17..19]))
  }

  /** The month is a month and the day one of its days. */
  predicate DateInRange(d: Date) {
    1 <= d.month <= 12 && 1 <= d.day <= DaysInMonth(d.year, d.month)
  }

  /** The first field out of its range, the offset's before the date's. */
  predicate OutOfItsRange(c: Civil, zone: string, field: string, value: int) {
    if field == "offset hour" then Numeric(zone) && value == ZoneHours(zone) && !(0 <= value <= 23)
    else if field == "offset minute"
    then Numeric(zone) && 0 <= ZoneHours(zone) <= 23 && value == ZoneMinutes(zone) && !(0 <= value <= 59)
    else
      && ZoneInRange(zone)
      && if field == "month" then value == c.date.month && !(1 <= value <= 12)
         else if field == "day" then value == c.date.day && 1 <= c.date.month <= 12 && !DateInRange(c.date)
         else if field == "hour" then value == c.hour && DateInRange(c.date) && !(0 <= value <= 23)
         else if field == "minute"
         then value == c.minute && DateInRange(c.date) && 0 <= c.hour <= 23 && !(0 <= value <= 59)
         else
           && field == "second" && value == c.second && DateInRange(c.date)
           && 0 <= c.hour <= 23 && 0 <= c.minute <= 59 && !(0 <= value <= 60)
  }

  predicate AllInRange(c: Civil, zone: string) {
    && ZoneInRange(zone) && DateInRange(c.date)
    && 0 <= c.hour <= 23 && 0 <= c.minute <= 59 && 0 <= c.second <= 60
  }

  /** What a text with this fraction and zone is read as. */
  predicate ReadsAs(s: string, zone: string, r: Result<int, TimestampError>)
    requires |s| >= 19
  {
    match r
    case Failure(Shape) => Signed(zone) && !Numeric(zone)
    case Failure(MissingOffset) => !Zulu(zone) && !Signed(zone)
    case Failure(OutOfRange(field, value)) => OutOfItsRange(FieldsAt(s), zone, field, value)
    case Failure(Unrepresentable) => false
    case Success(n) =>
      && AllInRange(FieldsAt(s), zone)
      && var c := FieldsAt(s);
         n == DaysFromCivil(c.date.year, c.date.month, c.date.day) * 86400
              + c.hour * 3600 + c.minute * 60 + c.second - ZoneSeconds(zone)
  }

  // ------------------------------------------------------------- the tail

  lemma {:induction false} LeadingDigitsAre(t: string)
    ensures AllDigits(t[..LeadingDigits(t)])
    ensures LeadingDigits(t) < |t| ==> !IsDigit(t[LeadingDigits(t)])
  {
    if t != "" && IsDigit(t[0]) {
      LeadingDigitsAre(t[1..]);
      var n := LeadingDigits(t[1..]);
      assert t[..n + 1] == [t[0]] + t[1..][..n];
    }
  }

  /** Every tail has a bad fraction or splits, and what splits it is what the
      parser leaves. */
  lemma TailsSplit(t: string) returns (fraction: string, zone: string)
    ensures BadFraction(t) ==> AfterFraction(t) == Failure(Shape)
    ensures !BadFraction(t) ==> Splits(t, fraction, zone) && AfterFraction(t) == Success(zone)
  {
    if t == "" || t[0] != '.' {
      fraction, zone := "", t;
    } else {
      LeadingDigitsAre(t[1..]);
      var n := LeadingDigits(t[1..]);
      fraction, zone := t[..n + 1], t[n + 1..];
      assert fraction[1..] == t[1..][..n];
      assert n > 0 <==> !BadFraction(t) by { FirstDigit(t[1..]); }
      if zone != "" {
        assert zone[0] == t[1..][n];
      }
    }
  }

  lemma FirstDigit(t: string)
    ensures LeadingDigits(t) > 0 <==> t != "" && IsDigit(t[0])
  {
  }

  lemma {:induction false} DigitsStop(digits: string, rest: string)
    requires AllDigits(digits) && (rest != "" ==> !IsDigit(rest[0]))
    ensures LeadingDigits(digits + rest) == |digits|
  {
    if rest != "" {
      LeadingDigitsStop(digits, rest);
    } else if digits != "" {
      assert (digits + rest)[1..] == digits[1..] + rest;
      DigitsStop(digits[1..], rest);
    }
  }

  /** A tail splits in one way only. */
  lemma SplitIsRead(t: string, fraction: string, zone: string)
    requires Splits(t, fraction, zone)
    ensures AfterFraction(t) == Success(zone) && !BadFraction(t)
  {
    if fraction == "" {
      assert t == zone;
    } else {
      assert t[1..] == fraction[1..] + zone;
      DigitsStop(fraction[1..], zone);
      assert IsDigit(fraction[1..][0]) && t[1] == fraction[1];
      assert t[|fraction|..] == zone;
    }
  }

  lemma ZonesRead(zone: string)
    ensures Zone(zone) == if Zulu(zone) then Success(0)
                          else if !Signed(zone) then Failure(MissingOffset)
                          else if !Numeric(zone) then Failure(Shape)
                          else if !(0 <= ZoneHours(zone) <= 23) then Failure(OutOfRange("offset hour", ZoneHours(zone)))
                          else if !(0 <= ZoneMinutes(zone) <= 59)
                          then Failure(OutOfRange("offset minute", ZoneMinutes(zone)))
                          else Success(ZoneSeconds(zone))
  {
    hide ValueOf, AllDigits;
  }

  // ------------------------------------------------------------ the fixed part

  lemma DigitsAt(s: string, from: int, to: int)
    requires 0 <= from <= to <= |s|
    ensures AllDigits(s[from..to]) <==> forall i :: from <= i < to ==> '0' <= s[i] <= '9'
  {
    var t := s[from..to];
    forall i | from <= i < to ensures s[i] == t[i - from] {
    }
    if AllDigits(t) {
      forall i | from <= i < to ensures '0' <= s[i] <= '9' {
        assert t[i - from] in t;
      }
    }
  }

  lemma FixedPartsRead(s: string)
    requires |s| >= 19
    ensures Numbers(s) == if (forall i :: 0 <= i < 19 && i !in {4, 7, 10, 13, 16} ==> '0' <= s[i] <= '9')
                          then Success(FieldsAt(s)) else Failure(Shape)
  {
    DigitsAt(s, 0, 4);
    DigitsAt(s, 5, 7);
    DigitsAt(s, 8, 10);
    DigitsAt(s, 11, 13);
    DigitsAt(s, 14, 16);
    DigitsAt(s, 17, 19);
    var digits := AllDigits(s[0..4]) && AllDigits(s[5..7]) && AllDigits(s[8..10])
               && AllDigits(s[11..13]) && AllDigits(s[14..16]) && AllDigits(s[17..19]);
    assert digits <==> forall i :: 0 <= i < 19 && i !in {4, 7, 10, 13, 16} ==> '0' <= s[i] <= '9';
    hide AllDigits, ValueOf;
  }

  lemma RangesRead(c: Civil, field: string, value: int, zone: string)
    requires ZoneInRange(zone)
    ensures CheckedCivil(c).Success? <==> AllInRange(c, zone)
    ensures CheckedCivil(c).Success? ==> CheckedCivil(c).value == c
    ensures CheckedCivil(c).Failure? ==> CheckedCivil(c).error.OutOfRange?
    ensures CheckedCivil(c) == Failure(OutOfRange(field, value)) <==> OutOfItsRange(c, zone, field, value)
  {
    hide DaysInMonth, ValueOf, AllDigits;
  }

  // ------------------------------------------------------------- the parser

  /** What a text is read as: nothing but a shape, when its fixed part or its
      fraction is malformed, and otherwise what its fields and its zone say. */
  ghost predicate Means(s: string, r: Result<int, TimestampError>) {
    if !WellFixed(s) || BadFraction(s[19..]) then r == Failure(Shape)
    else exists fraction, zone :: Splits(s[19..], fraction, zone) && ReadsAs(s, zone, r)
  }

  lemma TailsReadAs(s: string, zone: string, r: Result<int, TimestampError>)
    requires WellFixed(s) && AfterFraction(s[19..]) == Success(zone)
    ensures NamedSecond(s) == r <==> ReadsAs(s, zone, r)
  {
    FixedPartsRead(s);
    ZonesRead(zone);
    var c := FieldsAt(s);
    assert NamedSecond(s) == if Zone(zone).Failure? then Failure(Zone(zone).error)
                             else if CheckedCivil(c).Failure? then Failure(CheckedCivil(c).error)
                             else Success(SecondsOf(c) - Zone(zone).value) by {
      hide FieldsAt, Zone, CheckedCivil, SecondsOf;
      FixedPartsAreShaped(s);
    }
    hide NamedSecond, Zone, CheckedCivil, FieldsAt, Numbers, AfterFraction, ZoneHours, ZoneMinutes, WellFixed;
    if ZoneInRange(zone) {
      RangesRead(c, "", 0, zone);
      if r.Failure? && r.error.OutOfRange? {
        RangesRead(c, r.error.field, r.error.value, zone);
      }
    }
  }

  lemma FixedPartsAreShaped(s: string)
    ensures WellFixed(s)
       <==> Shaped(s) && forall i :: 0 <= i < 19 && i !in {4, 7, 10, 13, 16} ==> '0' <= s[i] <= '9'
  {
  }

  /** The parser reads every text as what it means: the second it names, or the
      one reason it is refused. */
  lemma ParsedExactly(s: string, r: Result<int, TimestampError>)
    ensures NamedSecond(s) == r <==> Means(s, r)
  {
    FixedPartsAreShaped(s);
    if !WellFixed(s) {
      MalformedIsRefused(s);
    } else {
      var fraction, zone := TailsSplit(s[19..]);
      if BadFraction(s[19..]) {
        BadFractionIsRefused(s);
      } else {
        TailsReadAs(s, zone, r);
        forall f, z | Splits(s[19..], f, z) ensures z == zone {
          SplitIsRead(s[19..], f, z);
        }
        hide NamedSecond, ReadsAs, Splits, WellFixed, BadFraction, AfterFraction;
      }
    }
  }

  lemma MalformedIsRefused(s: string)
    requires !WellFixed(s)
    ensures NamedSecond(s) == Failure(Shape)
  {
    FixedPartsAreShaped(s);
    if Shaped(s) {
      FixedPartsRead(s);
      hide Numbers;
    }
  }

  lemma BadFractionIsRefused(s: string)
    requires WellFixed(s) && BadFraction(s[19..])
    ensures NamedSecond(s) == Failure(Shape)
  {
    var fraction, zone := TailsSplit(s[19..]);
    FixedPartsRead(s);
    FixedPartsAreShaped(s);
    hide Numbers, WellFixed, Shaped, AfterFraction;
  }
}
