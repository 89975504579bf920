/**
  Calendar dates as the pickers produce them, and their wire form: date-fns
  `format(date, "dd-MM-yyyy")` — day and month as two digits, the year padded
  with zeros to at least four digits, separated by hyphens.
 */
module CalendarDates {
  import opened Wrappers
  import opened Text

  datatype CalendarDate = CalendarDate(day: nat, month: nat, year: nat)

  predicate IsLeapYear(y: nat)
  {
    (y % 4 == 0 && y % 100 != 0) || y % 400 == 0
  }

  function DaysInMonth(month: nat, year: nat): nat
  {
    if month == 2 then (if IsLeapYear(year) then 29 else 28)
    else if month == 4 || month == 6 || month == 9 || month == 11 then 30
    else 31
  }

  /** A date a calendar picker can hand out (years of the common era). */
  predicate Valid(d: CalendarDate)
  {
    && 1 <= d.month <= 12
    && 1 <= d.day <= DaysInMonth(d.month, d.year)
    && 1 <= d.year
  }

  function DigitChar(n: nat): (c: char)
    requires n < 10
    ensures IsDigit(c)
  {
    ['0', '1', '2', '3', '4', '5', '6', '7', '8', '9'][n]
  }

  function DigitValue(c: char): (n: nat)
    requires IsDigit(c)
    ensures n < 10 && DigitChar(n) == c
  {
    (c as int - '0' as int) as nat
  }

  /** The decimal numeral of `n`, without leading zeros. */
  function ToDigits(n: nat): (r: string)
    ensures AllDigits(r) && 1 <= |r|
    ensures n < 10 ==> |r| == 1
    ensures n < 100 ==> |r| <= 2
    ensures n >= 1 ==> r[0] != '0'
  {
    if n < 10 then [DigitChar(n)] else ToDigits(n / 10) + [DigitChar(n % 10)]
  }

  /** The value of a decimal numeral; the empty numeral reads as zero. */
  function ParseNat(s: string): nat
    requires AllDigits(s)
  {
    if s == [] then 0 else ParseNat(s[..|s| - 1]) * 10 + DigitValue(s[|s| - 1])
  }

  function Zeros(k: nat): (r: string)
    ensures |r| == k && AllDigits(r)
    ensures forall i :: 0 <= i < k ==> r[i] == '0'
  {
    seq(k, _ => '0')
  }

  /** `s` with zeros in front until it is at least `width` long. */
  function PadLeft(s: string, width: nat): (r: string)
    requires AllDigits(s)
    ensures AllDigits(r)
    ensures |r| == if |s| >= width then |s| else width
  {
    if |s| >= width then s else Zeros(width - |s|) + s
  }

  /** date-fns `format(date, "dd-MM-yyyy")`: a two-digit day, a hyphen, a
      two-digit month, a hyphen, and the year with zeros in front up to four
      digits and no further. */
  function FormatDate(d: CalendarDate): (r: string)
    ensures d.day < 100 && d.month < 100 ==>
              && |r| >= 10 && r[2] == '-' && r[5] == '-'
              && AllDigits(r[..2]) && ParseNat(r[..2]) == d.day
              && AllDigits(r[3..5]) && ParseNat(r[3..5]) == d.month
              && AllDigits(r[6..]) && ParseNat(r[6..]) == d.year
              && (|r| > 10 ==> r[6] != '0')
  {
    var dd := PadLeft(ToDigits(d.day), 2);
    var mm := PadLeft(ToDigits(d.month), 2);
    var yy := PadLeft(ToDigits(d.year), 4);
    DashedParts(dd, mm, yy);
    ParsePadded(d.day, 2);
    ParsePadded(d.month, 2);
    ParsePadded(d.year, 4);
    dd + "-" + mm + "-" + yy
  }

  /** Reads a `dd-MM-yyyy` string back; anything else, or an impossible date, is `None`. */
  function ParseDate(s: string): (r: Option<CalendarDate>)
    ensures r.Some? ==> Valid(r.value)
  {
    if |s| >= 10 && s[2] == '-' && s[5] == '-'
       && AllDigits(s[..2]) && AllDigits(s[3..5]) && AllDigits(s[6..])
    then
      var d := CalendarDate(ParseNat(s[..2]), ParseNat(s[3..5]), ParseNat(s[6..]));
      if Valid(d) then Some(d) else None
    else None
  }

  lemma {:induction false} ParseToDigits(n: nat)
    ensures ParseNat(ToDigits(n)) == n
  {
    if n >= 10 {
      var r := ToDigits(n);
      assert r[..|r| - 1] == ToDigits(n / 10);
      ParseToDigits(n / 10);
    }
  }

  lemma {:induction false} ParseZeros(k: nat)
    ensures ParseNat(Zeros(k)) == 0
  {
    if k > 0 {
      assert Zeros(k)[..k - 1] == Zeros(k - 1);
      ParseZeros(k - 1);
    }
  }

  /** Leading zeros do not change the value of a numeral. */
  lemma {:induction false} ParseLeadingZeros(k: nat, s: string)
    requires AllDigits(s)
    ensures ParseNat(Zeros(k) + s) == ParseNat(s)
  {
    if s == [] {
      assert Zeros(k) + s == Zeros(k);
      ParseZeros(k);
    } else {
      var z := Zeros(k) + s;
      assert z[..|z| - 1] == Zeros(k) + s[..|s| - 1];
      ParseLeadingZeros(k, s[..|s| - 1]);
    }
  }

  lemma ParsePadded(n: nat, width: nat)
    ensures ParseNat(PadLeft(ToDigits(n), width)) == n
  {
    var s := ToDigits(n);
    ParseToDigits(n);
    if |s| < width {
      ParseLeadingZeros(width - |s|, s);
    }
  }

  /** The three fields of a `dd-MM-...` string sit at fixed offsets. */
  lemma DashedParts(dd: string, mm: string, yy: string)
    ensures var s := dd + "-" + mm + "-" + yy;
            |dd| == 2 && |mm| == 2 ==>
              && s[2] == '-' && s[5] == '-'
              && s[..2] == dd && s[3..5] == mm && s[6..] == yy
  {
    var s := dd + "-" + mm + "-" + yy;
    if |dd| == 2 && |mm| == 2 {
      assert s[..2] == dd;
      assert s[3..5] == mm;
      assert s[6..] == yy;
    }
  }

  /** Formatting loses nothing: the wire string of a valid date reads back as that date. */
  lemma ParseFormatRoundTrip(d: CalendarDate)
    requires Valid(d)
    ensures ParseDate(FormatDate(d)) == Some(d)
  {
    var s := FormatDate(d);
    assert CalendarDate(ParseNat(s[..2]), ParseNat(s[3..5]), ParseNat(s[6..])) == d;
  }

  /** Distinct dates never share a wire string. */
  lemma FormatInjective(d1: CalendarDate, d2: CalendarDate)
    requires Valid(d1) && Valid(d2)
    ensures FormatDate(d1) == FormatDate(d2) ==> d1 == d2
  {
    ParseFormatRoundTrip(d1);
    ParseFormatRoundTrip(d2);
  }
}
