/** Calendar dates as Python's datetime.date holds them: proleptic Gregorian,
    years 1 to 9999, and their ISO and English renderings. */
module Calendar {
  import opened Decimal

  datatype Date = Date(year: int, month: int, day: int)

  /** datetime.MINYEAR and datetime.MAXYEAR */
  const MinYear := 1
  const MaxYear := 9999

  predicate IsLeapYear(year: int) {
    year % 4 == 0 && (year % 100 != 0 || year % 400 == 0)
  }

  function DaysInMonth(year: int, month: int): (n: int)
    requires 1 <= month <= 12
    ensures 28 <= n <= 31
    ensures n == 29 <==> month == 2 && IsLeapYear(year)
  {
    if month == 2 then (if IsLeapYear(year) then 29 else 28)
    else if month == 4 || month == 6 || month == 9 || month == 11 then 30
    else 31
  }

  /** The dates datetime.date(year, month, day) accepts without raising ValueError. */
  predicate IsValid(d: Date) {
    && MinYear <= d.year <= MaxYear
    && 1 <= d.month <= 12
    && 1 <= d.day <= DaysInMonth(d.year, d.month)
  }

  /** The day-by-day reading of the ValueError rule: days up to 28 exist in every
      month, the 29th everywhere but in February of a common year, the 30th
      everywhere but in February, and the 31st only in the seven long months. */
  lemma ValidDayByDay(d: Date)
    ensures IsValid(d) <==>
              && MinYear <= d.year <= MaxYear && 1 <= d.month <= 12 && 1 <= d.day
              && (|| d.day <= 28
                  || (d.day == 29 && (d.month != 2 || IsLeapYear(d.year)))
                  || (d.day == 30 && d.month != 2)
                  || (d.day == 31 && (d.month == 1 || d.month == 3 || d.month == 5 || d.month == 7
                                      || d.month == 8 || d.month == 10 || d.month == 12)))
  {
  }

  /** date.isoformat(): YYYY-MM-DD, every field zero-padded to its width. */
  function IsoFormat(d: Date): (s: string)
    requires IsValid(d)
    ensures |s| == 10 && s[4] == '-' && s[7] == '-'
    ensures AllDigits(s[..4]) && AllDigits(s[5..7]) && AllDigits(s[8..])
  {
    var s := Padded(d.year, 4) + "-" + Padded(d.month, 2) + "-" + Padded(d.day, 2);
    assert s[..4] == Padded(d.year, 4) && s[5..7] == Padded(d.month, 2) && s[8..] == Padded(d.day, 2);
    s
  }

  /** The full English month name strftime's %B gives in the C locale. */
  function MonthName(month: int): (name: string)
    requires 1 <= month <= 12
    ensures 3 <= |name| <= 9
  {
    match month
    case 1 => "January"
    case 2 => "February"
    case 3 => "March"
    case 4 => "April"
    case 5 => "May"
    case 6 => "June"
    case 7 => "July"
    case 8 => "August"
    case 9 => "September"
    case 10 => "October"
    case 11 => "November"
    case _ => "December"
  }

  /** No two months share a name, so %B identifies the month. */
  lemma MonthNameInjective(a: int, b: int)
    requires 1 <= a <= 12 && 1 <= b <= 12
    requires MonthName(a) == MonthName(b)
    ensures a == b
  {
    var na, nb := MonthName(a), MonthName(b);
    assert na[..3] == nb[..3] && |na| == |nb|;
  }

  /** strftime("%d %B %Y"): zero-padded day, English month name, year. */
  function DisplayDate(d: Date): (s: string)
    requires IsValid(d)
    ensures |s| == 2 + 1 + |MonthName(d.month)| + 1 + 4
  {
    Padded(d.day, 2) + " " + MonthName(d.month) + " " + Padded(d.year, 4)
  }

  /** The long display form names exactly one date. */
  lemma DisplayDateInjective(a: Date, b: Date)
    requires IsValid(a) && IsValid(b)
    requires DisplayDate(a) == DisplayDate(b)
    ensures a == b
  {
    var s := DisplayDate(a);
    var n := |s|;
    var ma, mb := MonthName(a.month), MonthName(b.month);
    assert s == Padded(a.day, 2) + " " + ma + " " + Padded(a.year, 4);
    assert s == Padded(b.day, 2) + " " + mb + " " + Padded(b.year, 4);
    assert |ma| == |mb|;
    assert s[..2] == Padded(a.day, 2) == Padded(b.day, 2);
    assert s[n - 4..] == Padded(a.year, 4) == Padded(b.year, 4);
    assert s[3..n - 5] == ma == mb;
    MonthNameInjective(a.month, b.month);
    ValueOfPadded(a.day, 2);
    ValueOfPadded(b.day, 2);
    ValueOfPadded(a.year, 4);
    ValueOfPadded(b.year, 4);
  }

  /** The ISO form names exactly one date. */
  lemma IsoFormatInjective(a: Date, b: Date)
    requires IsValid(a) && IsValid(b)
    requires IsoFormat(a) == IsoFormat(b)
    ensures a == b
  {
    var s := IsoFormat(a);
    assert s[..4] == Padded(a.year, 4) == Padded(b.year, 4);
    assert s[5..7] == Padded(a.month, 2) == Padded(b.month, 2);
    assert s[8..] == Padded(a.day, 2) == Padded(b.day, 2);
    ValueOfPadded(a.year, 4);
    ValueOfPadded(b.year, 4);
    ValueOfPadded(a.month, 2);
    ValueOfPadded(b.month, 2);
    ValueOfPadded(a.day, 2);
    ValueOfPadded(b.day, 2);
  }
}
