/** Decimal numerals as the formatter writes them and the parser reads them. */
module Numerals {
  predicate IsDigit(c: char) {
    '0' <= c <= '9'
  }

  predicate AllDigits(s: string) {
    forall c :: c in s ==> IsDigit(c)
  }

  function DigitChar(d: int): (c: char)
    requires 0 <= d < 10
    ensures IsDigit(c) && DigitOf(c) == d
  {
    '0' + d as char
  }

  function DigitOf(c: char): (d: int) {
    c as int - '0' as int
  }

  /** `{n}`. */
  function Decimal(n: nat): (s: string)
    ensures s != "" && AllDigits(s)
  {
    if n < 10 then [DigitChar(n)] else Decimal(n / 10) + [DigitChar(n % 10)]
  }

  /** The number a run of digits names. */
  function ValueOf(s: string): (n: int) {
    if s == "" then 0 else 10 * ValueOf(s[..|s| - 1]) + DigitOf(s[|s| - 1])
  }

  function Zeros(n: int): (s: string)
    ensures AllDigits(s)
    ensures |s| == if n > 0 then n else 0
  {
    if n <= 0 then "" else Zeros(n - 1) + "0"
  }

  /** `{n:0w}`: zero-padded on the left to at least `w` characters. */
  function Padded(n: nat, w: nat): (s: string)
    ensures AllDigits(s)
  {
    Zeros(w - |Decimal(n)|) + Decimal(n)
  }

  function Power10(w: nat): (p: nat)
    ensures p > 0
  {
    if w == 0 then 1 else 10 * Power10(w - 1)
  }

  lemma ValueOfSnoc(s: string, c: char)
    ensures ValueOf(s + [c]) == 10 * ValueOf(s) + DigitOf(c)
  {
  }

  /** Printing a number and reading it back gives the number. */
  lemma {:induction false} DecimalRoundTrip(n: nat)
    ensures ValueOf(Decimal(n)) == n
  {
    if n >= 10 {
      DecimalRoundTrip(n / 10);
      ValueOfSnoc(Decimal(n / 10), DigitChar(n % 10));
    } else {
      ValueOfSnoc("", DigitChar(n));
      assert "" + [DigitChar(n)] == [DigitChar(n)];
    }
  }

  /** A numeral is as short as it can be and has its units last: no zero leads it
      unless it is all there is. */
  lemma {:induction false} DecimalIsPlain(n: nat)
    ensures n < 10 ==> |Decimal(n)| == 1
    ensures n >= 10 ==> |Decimal(n)| == |Decimal(n / 10)| + 1
    ensures Decimal(n)[0] == '0' <==> n == 0
    ensures Decimal(n)[|Decimal(n)| - 1] as int == '0' as int + n % 10
  {
    if n >= 10 {
      DecimalIsPlain(n / 10);
    }
  }

  lemma PaddedStep(n: nat, w: nat)
    requires w >= 2
    ensures Padded(n, w) == Padded(n / 10, w - 1) + [DigitChar(n % 10)]
  {
  }

  /** A number that fits its width takes exactly that width and reads back. */
  lemma {:induction false} PaddedFits(n: nat, w: nat)
    requires w >= 1 && n < Power10(w)
    ensures |Padded(n, w)| == w && ValueOf(Padded(n, w)) == n
  {
    if w == 1 {
      assert Power10(1) == 10 * Power10(0);
      DecimalRoundTrip(n);
      assert Padded(n, 1) == Decimal(n);
    } else {
      assert Power10(w) == 10 * Power10(w - 1);
      PaddedStep(n, w);
      hide Padded, Power10, ValueOf;
      PaddedFits(n / 10, w - 1);
      ValueOfSnoc(Padded(n / 10, w - 1), DigitChar(n % 10));
    }
  }

  // ------------------------------------------------------------ string order

  /** The order of strings: the first difference decides. */
  predicate Less(a: string, b: string) {
    if b == "" then false
    else if a == "" then true
    else a[0] < b[0] || (a[0] == b[0] && Less(a[1..], b[1..]))
  }

  /** Two strings with equally long first parts compare by those parts first. */
  lemma {:induction false} LessByParts(a: string, x: string, b: string, y: string)
    requires |a| == |b|
    ensures Less(a + x, b + y) <==> Less(a, b) || (a == b && Less(x, y))
  {
    if a == "" {
      assert a + x == x && b + y == y;
    } else {
      assert (a + x)[1..] == a[1..] + x && (b + y)[1..] == b[1..] + y;
      LessByParts(a[1..], x, b[1..], y);
      assert a == b <==> a[0] == b[0] && a[1..] == b[1..];
    }
  }

  lemma DigitOrder(c: int, d: int)
    requires 0 <= c < 10 && 0 <= d < 10
    ensures Less([DigitChar(c)], [DigitChar(d)]) <==> c < d
    ensures DigitChar(c) == DigitChar(d) <==> c == d
  {
  }

  lemma OneDigit(n: nat)
    requires n < Power10(1)
    ensures n < 10 && Padded(n, 1) == [DigitChar(n)]
  {
  }

  /** At one width, string order is numeric order. */
  lemma {:induction false} PaddedOrder(m: nat, n: nat, w: nat)
    requires w >= 1 && m < Power10(w) && n < Power10(w)
    ensures Less(Padded(m, w), Padded(n, w)) <==> m < n
  {
    if w == 1 {
      OneDigit(m);
      OneDigit(n);
      DigitOrder(m, n);
    } else {
      assert m / 10 < Power10(w - 1) && n / 10 < Power10(w - 1);
      hide Padded, Less, DigitChar, Power10;
      PaddedStep(m, w);
      PaddedStep(n, w);
      SamePadded(m / 10, n / 10, w - 1);
      PaddedOrder(m / 10, n / 10, w - 1);
      LessByParts(Padded(m / 10, w - 1), [DigitChar(m % 10)], Padded(n / 10, w - 1), [DigitChar(n % 10)]);
      DigitOrder(m % 10, n % 10);
    }
  }

  /** At one width, one number has one text. */
  lemma SamePadded(m: nat, n: nat, w: nat)
    requires w >= 1 && m < Power10(w) && n < Power10(w)
    ensures |Padded(m, w)| == |Padded(n, w)| == w
    ensures Padded(m, w) == Padded(n, w) <==> m == n
  {
    PaddedFits(m, w);
    PaddedFits(n, w);
  }
}
