/** The date texts `main` derives from today's date: the Hebrew weekday
    name, the display string `D בMONTH YYYY` and the `YYYY-MM-DD` slug of
    the page's file name. The date itself comes from the clock and is an
    input here. */
module Dates {
  import opened Text

  /** A calendar date as Python's `date` holds it, with `weekday()`
      (Monday is 0). */
  datatype Date = Date(year: nat, month: nat, day: nat, weekday: nat)

  /** The dates `datetime.date` can represent. */
  predicate ValidDate(d: Date) {
    1 <= d.year <= 9999 && 1 <= d.month <= 12 && 1 <= d.day <= 31 && d.weekday < 7
  }

  /** `day_names`, indexed by `weekday()`. */
  const DayNames: seq<string> :=
    ["יום שני", "יום שלישי", "יום רביעי", "יום חמישי", "יום שישי", "שבת", "יום ראשון"]

  /** The month names, January first. */
  const MonthNames: seq<string> :=
    ["ינואר", "פברואר", "מרץ", "אפריל", "מאי", "יוני",
     "יולי", "אוגוסט", "ספטמבר", "אוקטובר", "נובמבר", "דצמבר"]

  /** `day_names[today.weekday()]`. */
  function DayName(weekday: nat): string
    requires weekday < 7
  {
    DayNames[weekday]
  }

  /** `today.month - 1` indexes the month list. */
  function MonthName(month: nat): string
    requires 1 <= month <= 12
  {
    MonthNames[month - 1]
  }

  /** `f"{today.day} ב{month} {today.year}"`. */
  function DateString(d: Date): string
    requires ValidDate(d)
  {
    Decimal(d.day) + " ב" + MonthName(d.month) + " " + Decimal(d.year)
  }

  /** `n` in decimal, zero-padded on the left to `width` digits. */
  function Padded(n: nat, width: nat): string {
    ZeroPad(Decimal(n), width)
  }

  /** `today.strftime("%Y-%m-%d")`. */
  function Slug(d: Date): string
    requires ValidDate(d)
  {
    Padded(d.year, 4) + "-" + Padded(d.month, 2) + "-" + Padded(d.day, 2)
  }

  // ---------------------------------------------------------------------
  // Properties

  /** The seven weekday names are distinct, Saturday (5) is "שבת" and
      Sunday (6) is "יום ראשון". */
  lemma {:induction false} WeekdayNames()
    ensures |DayNames| == 7
    ensures forall i, j :: 0 <= i < j < 7 ==> DayName(i) != DayName(j)
    ensures DayName(5) == "שבת" && DayName(6) == "יום ראשון"
  {
  }

  /** The twelve month names are distinct and none holds a space. */
  lemma {:induction false} MonthNamesDistinct()
    ensures |MonthNames| == 12
    ensures forall i, j :: 1 <= i < j <= 12 ==> MonthName(i) != MonthName(j)
    ensures forall m :: 1 <= m <= 12 ==> ' ' !in MonthName(m)
  {
  }

  /** Splitting at the first space: two texts without a space, each
      followed by a space, agree when the whole strings agree. */
  lemma {:induction false} SplitAtSpace(a: string, r: string, b: string, t: string)
    requires ' ' !in a && ' ' !in b
    requires a + " " + r == b + " " + t
    ensures a == b && r == t
  {
    var s := a + " " + r;
    assert s[|a|] == ' ' && forall k :: 0 <= k < |a| ==> s[k] != ' ';
    assert s[|b|] == ' ' && forall k :: 0 <= k < |b| ==> s[k] != ' ';
    assert a == s[..|a|] == b;
    assert r == s[|a| + 1..] == t;
  }

  lemma {:induction false} DigitsNoSpace(s: string)
    requires AllDigits(s)
    ensures ' ' !in s
  {
  }

  /** The display string is the day, a space, `ב` and the month, a space
      and the year, and neither the day nor the month holds a space. */
  lemma {:induction false} DateStringFields(d: Date)
    requires ValidDate(d)
    ensures DateString(d) == Decimal(d.day) + " " + (("ב" + MonthName(d.month)) + " " + Decimal(d.year))
    ensures ' ' !in Decimal(d.day) && ' ' !in "ב" + MonthName(d.month)
  {
    MonthNamesDistinct();
    DigitsNoSpace(Decimal(d.day));
  }

  /** The display string determines the date: different days, months or
      years never show the same text. */
  lemma {:induction false} DateStringDetermines(d1: Date, d2: Date)
    requires ValidDate(d1) && ValidDate(d2)
    requires DateString(d1) == DateString(d2)
    ensures d1.day == d2.day && d1.month == d2.month && d1.year == d2.year
  {
    var m1, m2 := "ב" + MonthName(d1.month), "ב" + MonthName(d2.month);
    var y1, y2 := Decimal(d1.year), Decimal(d2.year);
    DateStringFields(d1);
    DateStringFields(d2);
    SplitAtSpace(Decimal(d1.day), m1 + " " + y1, Decimal(d2.day), m2 + " " + y2);
    SplitAtSpace(m1, y1, m2, y2);
    assert MonthName(d1.month) == m1[1..] == m2[1..] == MonthName(d2.month);
    MonthNamesDistinct();
    DecimalRoundTrip(d1.day);
    DecimalRoundTrip(d2.day);
    DecimalRoundTrip(d1.year);
    DecimalRoundTrip(d2.year);
  }

  /** A number below 10^width, zero-padded to `width`, is `width` digits
      that read back as the number. */
  lemma {:induction false} PaddedRoundTrip(n: nat, width: nat)
    requires 1 <= width && n < Pow10(width)
    ensures |Padded(n, width)| == width && AllDigits(Padded(n, width))
    ensures DigitsValue(Padded(n, width)) == n
  {
    DecimalWidth(n, width);
    DecimalRoundTrip(n);
    ZerosValue(width - |Decimal(n)|, Decimal(n));
  }

  /** The fields of a dash-separated `YYYY-MM-DD` text. */
  lemma {:induction false} DashFields(y: string, m: string, dd: string)
    requires |y| == 4 && |m| == 2 && |dd| == 2
    ensures var s := y + "-" + m + "-" + dd;
            |s| == 10 && s[4] == '-' && s[7] == '-' && s[..4] == y && s[5..7] == m && s[8..] == dd
  {
    var s := y + "-" + m + "-" + dd;
    assert s[..4] == y;
    assert s[5..7] == m;
    assert s[8..] == dd;
  }

  /** The slug is ten characters, `YYYY-MM-DD`: dashes at 4 and 7, and
      the three digit fields read back as the year, month and day. */
  lemma {:induction false} SlugRoundTrip(d: Date)
    requires ValidDate(d)
    ensures |Slug(d)| == 10 && Slug(d)[4] == '-' && Slug(d)[7] == '-'
    ensures AllDigits(Slug(d)[..4]) && DigitsValue(Slug(d)[..4]) == d.year
    ensures AllDigits(Slug(d)[5..7]) && DigitsValue(Slug(d)[5..7]) == d.month
    ensures AllDigits(Slug(d)[8..]) && DigitsValue(Slug(d)[8..]) == d.day
  {
    assert Pow10(2) == 100;
    assert Pow10(4) == 10000;
    PaddedRoundTrip(d.year, 4);
    PaddedRoundTrip(d.month, 2);
    PaddedRoundTrip(d.day, 2);
    DashFields(Padded(d.year, 4), Padded(d.month, 2), Padded(d.day, 2));
  }

  /** The slug determines the date. */
  lemma {:induction false} SlugDetermines(d1: Date, d2: Date)
    requires ValidDate(d1) && ValidDate(d2) && Slug(d1) == Slug(d2)
    ensures d1.year == d2.year && d1.month == d2.month && d1.day == d2.day
  {
    SlugRoundTrip(d1);
    SlugRoundTrip(d2);
  }
}
