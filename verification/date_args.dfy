/** get_date: pick the date the run is about from the command-line arguments.
    The scan keeps the first argument shaped DD-MM-YYYY or YYYY-MM-DD, reads it
    with the field order its shape says, checks it is a real date and renders it
    as ISO YYYY-MM-DD; with no date-shaped argument the answer is today. */
module DateArgs {
  import opened Results
  import opened Decimal
  import opened Calendar

  /** The arguments after the program name: sys.argv[1:] (empty when argv is). */
  function Args(argv: seq<string>): (args: seq<string>)
    ensures |argv| > 0 ==> args == argv[1..]
    ensures |argv| == 0 ==> args == []
  {
    if |argv| == 0 then [] else argv[1..]
  }

  /** Exactly DD-MM-YYYY: two digits, hyphen, two digits, hyphen, four digits. */
  predicate IsDmy(s: string) {
    && |s| == 10
    && AllDigits(s[..2]) && s[2] == '-'
    && AllDigits(s[3..5]) && s[5] == '-'
    && AllDigits(s[6..])
  }

  /** Exactly YYYY-MM-DD. */
  predicate IsYmd(s: string) {
    && |s| == 10
    && AllDigits(s[..4]) && s[4] == '-'
    && AllDigits(s[5..7]) && s[7] == '-'
    && AllDigits(s[8..])
  }

  /** re.match(r"^\d{2}-\d{2}-\d{4}$", s): `$` also matches before one final newline. */
  predicate MatchesDmy(s: string) {
    IsDmy(s) || (|s| == 11 && s[10] == '\n' && IsDmy(s[..10]))
  }

  /** re.match(r"^\d{4}-\d{2}-\d{2}$", s) */
  predicate MatchesYmd(s: string) {
    IsYmd(s) || (|s| == 11 && s[10] == '\n' && IsYmd(s[..10]))
  }

  /** The test of the scan at main.py:42. */
  predicate IsDateShaped(s: string) {
    MatchesDmy(s) || MatchesYmd(s)
  }

  /** The fields of a DD-MM-YYYY string, day first: writing each field back at
      its width gives the argument's own digits. */
  function FieldsDmy(s: string): (d: Date)
    requires IsDmy(s)
    ensures 0 <= d.day < 100 && 0 <= d.month < 100 && 0 <= d.year < 10000
    ensures Padded(d.day, 2) == s[..2] && Padded(d.month, 2) == s[3..5] && Padded(d.year, 4) == s[6..]
  {
    PaddedOfValue(s[..2]);
    PaddedOfValue(s[3..5]);
    PaddedOfValue(s[6..]);
    Date(Value(s[6..]), Value(s[3..5]), Value(s[..2]))
  }

  /** The fields of a YYYY-MM-DD string, year first. */
  function FieldsYmd(s: string): (d: Date)
    requires IsYmd(s)
    ensures 0 <= d.day < 100 && 0 <= d.month < 100 && 0 <= d.year < 10000
    ensures Padded(d.year, 4) == s[..4] && Padded(d.month, 2) == s[5..7] && Padded(d.day, 2) == s[8..]
  {
    PaddedOfValue(s[..4]);
    PaddedOfValue(s[5..7]);
    PaddedOfValue(s[8..]);
    Date(Value(s[..4]), Value(s[5..7]), Value(s[8..]))
  }

  /** datetime.strptime(s, "%d-%m-%Y") on a string the DD-MM-YYYY regex accepted:
      None stands for the ValueError it raises (unconverted trailing newline,
      or fields that are not a real date). */
  function ParseDmy(s: string): (r: Option<Date>)
    requires MatchesDmy(s)
    ensures r.Some? <==> IsDmy(s) && IsValid(FieldsDmy(s))
    ensures r.Some? ==> IsValid(r.value) && r.value == FieldsDmy(s)
    ensures r.Some? ==> IsoFormat(r.value) == s[6..] + "-" + s[3..5] + "-" + s[..2]
  {
    if IsDmy(s) && IsValid(FieldsDmy(s)) then Some(FieldsDmy(s)) else None
  }

  /** datetime.strptime(s, "%Y-%m-%d") on a string the YYYY-MM-DD regex accepted. */
  function ParseYmd(s: string): (r: Option<Date>)
    requires MatchesYmd(s)
    ensures r.Some? <==> IsYmd(s) && IsValid(FieldsYmd(s))
    ensures r.Some? ==> IsValid(r.value) && r.value == FieldsYmd(s)
    ensures r.Some? ==> IsoFormat(r.value) == s
  {
    if IsYmd(s) && IsValid(FieldsYmd(s)) then
      YmdSplit(s);
      Some(FieldsYmd(s))
    else None
  }

  /** main.py:50-63: parse the selected argument by its shape and render it as ISO;
      a failed parse is the exit with status 1. */
  function ParseDateArg(s: string): (r: Result<string>)
    requires IsDateShaped(s)
    ensures r.Err? ==> r.failure == InvalidDate
  {
    var parsed := if MatchesDmy(s) then ParseDmy(s) else ParseYmd(s);
    match parsed
    case None => Err(InvalidDate)
    case Some(d) => Ok(IsoFormat(d))
  }

  /** The position of the first date-shaped argument, if any. */
  function FirstDateArg(args: seq<string>): (r: Option<nat>)
    ensures r.Some? ==> r.value < |args| && IsDateShaped(args[r.value])
    ensures r.Some? ==> forall j :: 0 <= j < r.value ==> !IsDateShaped(args[j])
    ensures r.None? ==> forall j :: 0 <= j < |args| ==> !IsDateShaped(args[j])
  {
    if args == [] then None
    else if IsDateShaped(args[0]) then Some(0)
    else match FirstDateArg(args[1..])
      case None => None
      case Some(i) => Some(i + 1)
  }

  /** What get_date returns for the arguments sys.argv[1:] and the clock's date today. */
  function ResolveDate(args: seq<string>, today: Date): (r: Result<string>)
    requires IsValid(today)
    ensures r.Err? ==> r.failure == InvalidDate && FirstDateArg(args).Some?
  {
    match FirstDateArg(args)
    case None => Ok(IsoFormat(today))
    case Some(i) => ParseDateArg(args[i])
  }

  /** get_date as the source runs it: a loop over the arguments that stops at the
      first date-shaped one, then the parse of that one. */
  method GetDate(args: seq<string>, today: Date) returns (r: Result<string>)
    requires IsValid(today)
    ensures r == ResolveDate(args, today)
    ensures r.Ok? ==> IsYmd(r.value) && IsValid(FieldsYmd(r.value))
  {
    var i := 0;
    while i < |args|
      invariant 0 <= i <= |args|
      invariant forall j :: 0 <= j < i ==> !IsDateShaped(args[j])
    {
      if IsDateShaped(args[i]) {
        break;
      }
      i := i + 1;
    }
    if i == |args| {
      r := Ok(IsoFormat(today));
    } else {
      var arg := args[i];
      var parsed: Option<Date>;
      if MatchesDmy(arg) {
        parsed := ParseDmy(arg);
      } else {
        parsed := ParseYmd(arg);
      }
      if parsed.None? {
        r := Err(InvalidDate);
      } else {
        r := Ok(IsoFormat(parsed.value));
      }
    }
    ResolvedIsValidIso(args, today);
  }

  // ---------------------------------------------------------------------------
  // The ISO rendering and the YYYY-MM-DD reading are inverse to each other.

  /** Rendering a valid date as ISO and reading it back gives the date. */
  lemma IsoFormatParses(d: Date)
    requires IsValid(d)
    ensures IsYmd(IsoFormat(d)) && FieldsYmd(IsoFormat(d)) == d
  {
    var s := IsoFormat(d);
    assert s[..4] == Padded(d.year, 4) && s[5..7] == Padded(d.month, 2) && s[8..] == Padded(d.day, 2);
    ValueOfPadded(d.year, 4);
    ValueOfPadded(d.month, 2);
    ValueOfPadded(d.day, 2);
  }

  /** Reading a YYYY-MM-DD string and rendering the date as ISO gives the string. */
  lemma FieldsYmdFormats(s: string)
    requires IsYmd(s) && IsValid(FieldsYmd(s))
    ensures IsoFormat(FieldsYmd(s)) == s
  {
    var d := FieldsYmd(s);
    PaddedOfValue(s[..4]);
    PaddedOfValue(s[5..7]);
    PaddedOfValue(s[8..]);
    calc {
      IsoFormat(d);
      Padded(d.year, 4) + "-" + Padded(d.month, 2) + "-" + Padded(d.day, 2);
      s[..4] + "-" + s[5..7] + "-" + s[8..];
      { YmdSplit(s); }
      s;
    }
  }

  /** A YYYY-MM-DD string is its three fields joined by hyphens. */
  lemma YmdSplit(s: string)
    requires IsYmd(s)
    ensures s == s[..4] + "-" + s[5..7] + "-" + s[8..]
  {
    var t := s[..4] + "-" + s[5..7] + "-" + s[8..];
    assert |t| == |s|;
    forall i | 0 <= i < |s|
      ensures t[i] == s[i]
    {
      if i < 4 { assert t[i] == s[..4][i]; }
      else if i == 4 { }
      else if i < 7 { assert t[i] == s[5..7][i - 5]; }
      else if i == 7 { }
      else { assert t[i] == s[8..][i - 8]; }
    }
  }

  /** A string of length 10 is DD-MM-YYYY exactly when it has hyphens at
      positions 2 and 5 and ASCII digits everywhere else. */
  lemma IsDmyCharwise(t: string)
    requires |t| == 10
    ensures IsDmy(t) <==> t[2] == '-' && t[5] == '-' && forall k :: 0 <= k < 10 && k != 2 && k != 5 ==> IsDigit(t[k])
  {
    if IsDmy(t) {
      forall k | 0 <= k < 10 && k != 2 && k != 5
        ensures IsDigit(t[k])
      {
        if k < 2 { assert t[..2][k] == t[k]; }
        else if k < 5 { assert t[3..5][k - 3] == t[k]; }
        else { assert t[6..][k - 6] == t[k]; }
      }
    }
  }

  /** A string of length 10 is YYYY-MM-DD exactly when it has hyphens at
      positions 4 and 7 and ASCII digits everywhere else. */
  lemma IsYmdCharwise(t: string)
    requires |t| == 10
    ensures IsYmd(t) <==> t[4] == '-' && t[7] == '-' && forall k :: 0 <= k < 10 && k != 4 && k != 7 ==> IsDigit(t[k])
  {
    if IsYmd(t) {
      forall k | 0 <= k < 10 && k != 4 && k != 7
        ensures IsDigit(t[k])
      {
        if k < 4 { assert t[..4][k] == t[k]; }
        else if k < 7 { assert t[5..7][k - 5] == t[k]; }
        else { assert t[8..][k - 8] == t[k]; }
      }
    }
  }

  /** The DD-MM-YYYY regex of main.py:42, character by character: ten characters,
      or those ten and one final newline, with hyphens at positions 2 and 5 and
      ASCII digits everywhere else. */
  lemma MatchesDmyCharwise(s: string)
    ensures MatchesDmy(s) <==>
              && (|s| == 10 || (|s| == 11 && s[10] == '\n'))
              && s[2] == '-' && s[5] == '-'
              && forall k :: 0 <= k < 10 && k != 2 && k != 5 ==> IsDigit(s[k])
  {
    if |s| == 10 {
      IsDmyCharwise(s);
    } else if |s| == 11 {
      IsDmyCharwise(s[..10]);
    }
  }

  /** The YYYY-MM-DD regex of main.py:42, character by character. */
  lemma MatchesYmdCharwise(s: string)
    ensures MatchesYmd(s) <==>
              && (|s| == 10 || (|s| == 11 && s[10] == '\n'))
              && s[4] == '-' && s[7] == '-'
              && forall k :: 0 <= k < 10 && k != 4 && k != 7 ==> IsDigit(s[k])
  {
    if |s| == 10 {
      IsYmdCharwise(s);
    } else if |s| == 11 {
      IsYmdCharwise(s[..10]);
    }
  }

  /** No string matches both regexes, so the branch at main.py:52 is decided by
      shape alone. */
  lemma ShapesDisjoint(s: string)
    ensures !(MatchesDmy(s) && MatchesYmd(s))
  {
  }

  // ---------------------------------------------------------------------------
  // Properties of the resolver.

  /** Every successful resolution is an ISO date string naming a real date. */
  lemma ResolvedIsValidIso(args: seq<string>, today: Date)
    requires IsValid(today)
    ensures ResolveDate(args, today).Ok? ==>
              IsYmd(ResolveDate(args, today).value) && IsValid(FieldsYmd(ResolveDate(args, today).value))
  {
    match FirstDateArg(args)
    case None =>
      IsoFormatParses(today);
    case Some(i) =>
      var s := args[i];
      var parsed := if MatchesDmy(s) then ParseDmy(s) else ParseYmd(s);
      if parsed.Some? {
        IsoFormatParses(parsed.value);
      }
  }

  /** With no date-shaped argument the answer is today's date in ISO form. */
  lemma NoDateArgMeansToday(args: seq<string>, today: Date)
    requires IsValid(today)
    requires forall j :: 0 <= j < |args| ==> !IsDateShaped(args[j])
    ensures ResolveDate(args, today) == Ok(IsoFormat(today))
  {
  }

  /** The first date-shaped argument alone decides the answer. */
  lemma FirstDateArgDecides(args: seq<string>, i: nat, today: Date)
    requires IsValid(today)
    requires i < |args| && IsDateShaped(args[i])
    requires forall j :: 0 <= j < i ==> !IsDateShaped(args[j])
    ensures ResolveDate(args, today) == ParseDateArg(args[i])
  {
  }

  /** The program name argv[0] is never scanned, even when it is date-shaped. */
  lemma ProgramNameNotScanned(program: string, args: seq<string>, today: Date)
    requires IsValid(today)
    ensures ResolveDate(Args([program] + args), today) == ResolveDate(args, today)
  {
    assert Args([program] + args) == args;
  }

  /** Arguments that are not date-shaped, such as -w, are skipped, not rejected. */
  lemma NonDateArgSkipped(a: string, args: seq<string>, today: Date)
    requires IsValid(today) && !IsDateShaped(a)
    ensures ResolveDate([a] + args, today) == ResolveDate(args, today)
  {
    assert ([a] + args)[1..] == args;
  }

  /** Arguments after the first date-shaped one are never looked at. */
  lemma LaterArgsIgnored(args: seq<string>, rest: seq<string>, today: Date)
    requires IsValid(today) && FirstDateArg(args).Some?
    ensures ResolveDate(args + rest, today) == ResolveDate(args, today)
  {
    var i := FirstDateArg(args).value;
    var all := args + rest;
    assert all[i] == args[i];
    forall j | 0 <= j < i
      ensures !IsDateShaped(all[j])
    {
      assert all[j] == args[j];
    }
    FirstDateArgDecides(all, i, today);
  }

  /** A DD-MM-YYYY string is read day, month, year: it is accepted exactly when
      those fields make a real date, and the answer swaps the fields into ISO order. */
  lemma DmyReadDayMonthYear(s: string)
    requires IsDmy(s)
    ensures ParseDateArg(s).Ok? <==> IsValid(FieldsDmy(s))
    ensures ParseDateArg(s).Ok? ==> ParseDateArg(s).value == s[6..] + "-" + s[3..5] + "-" + s[..2]
  {
    if IsValid(FieldsDmy(s)) {
      var d := FieldsDmy(s);
      PaddedOfValue(s[6..]);
      PaddedOfValue(s[3..5]);
      PaddedOfValue(s[..2]);
      assert IsoFormat(d) == Padded(d.year, 4) + "-" + Padded(d.month, 2) + "-" + Padded(d.day, 2);
    }
  }

  /** A YYYY-MM-DD string is accepted exactly when it names a real date, and then
      the answer is the string itself: ISO input is a fixed point. */
  lemma YmdIsFixedPoint(s: string)
    requires IsYmd(s)
    ensures ParseDateArg(s).Ok? <==> IsValid(FieldsYmd(s))
    ensures ParseDateArg(s).Ok? ==> ParseDateArg(s).value == s
  {
    ShapesDisjoint(s);
    if IsValid(FieldsYmd(s)) {
      FieldsYmdFormats(s);
    }
  }

  /** A date-shaped argument with the trailing newline `$` lets through is an error. */
  lemma TrailingNewlineRejected(s: string)
    requires IsDateShaped(s) && |s| == 11
    ensures ParseDateArg(s) == Err(InvalidDate)
  {
  }

  /** Feeding the answer back in, alone or ahead of any other arguments, gives the
      same answer whatever the date today. */
  lemma ResolveIsIdempotent(args: seq<string>, today: Date, rest: seq<string>, later: Date)
    requires IsValid(today) && IsValid(later)
    requires ResolveDate(args, today).Ok?
    ensures ResolveDate([ResolveDate(args, today).value] + rest, later) == ResolveDate(args, today)
  {
    var iso := ResolveDate(args, today).value;
    ResolvedIsValidIso(args, today);
    YmdIsFixedPoint(iso);
    FirstDateArgDecides([iso] + rest, 0, later);
  }

  /** A DD-MM-YYYY argument after a flag is read day first: 01-02-2024 is the
      first of February. */
  lemma DayFirstExample(today: Date)
    requires IsValid(today)
    ensures ResolveDate(["-w", "01-02-2024"], today) == Ok("2024-02-01")
  {
    NonDateArgSkipped("-w", ["01-02-2024"], today);
    FirstOfFebruary(today);
  }

  /** 01-02-2024 alone resolves to 2024-02-01. */
  lemma FirstOfFebruary(today: Date)
    requires IsValid(today)
    ensures ResolveDate(["01-02-2024"], today) == Ok("2024-02-01")
  {
    Joined("01", "02", "2024", "01-02-2024", "2024-02-01");
    TwoDigitFieldValues();
    FourDigitFieldValues();
    DmyAccepted(["01-02-2024"], "01", "02", "2024", today);
  }

  /** Month 13 is not a month. */
  lemma MonthThirteenRejected(today: Date)
    requires IsValid(today)
    ensures ResolveDate(["01-13-2024"], today) == Err(InvalidDate)
  {
    TwoDigitFieldValues();
    FourDigitFieldValues();
    DmyRejected(["01-13-2024"], "01", "13", "2024", today);
  }

  /** Day 00 is not a day. */
  lemma DayZeroRejected(today: Date)
    requires IsValid(today)
    ensures ResolveDate(["00-01-2024"], today) == Err(InvalidDate)
  {
    TwoDigitFieldValues();
    FourDigitFieldValues();
    DmyRejected(["00-01-2024"], "00", "01", "2024", today);
  }

  /** February never has 31 days. */
  lemma ThirtyFirstOfFebruaryRejected(today: Date)
    requires IsValid(today)
    ensures ResolveDate(["31-02-2024"], today) == Err(InvalidDate)
  {
    TwoDigitFieldValues();
    FourDigitFieldValues();
    DmyRejected(["31-02-2024"], "31", "02", "2024", today);
  }

  /** 2023 is not a leap year, 2024 is. */
  lemma LeapDayExamples(today: Date)
    requires IsValid(today)
    ensures ResolveDate(["29-02-2023"], today) == Err(InvalidDate)
    ensures ResolveDate(["29-02-2024"], today) == Ok("2024-02-29")
  {
    TwoDigitFieldValues();
    FourDigitFieldValues();
    DmyRejected(["29-02-2023"], "29", "02", "2023", today);
    LeapDay2024(today);
  }

  /** 29-02-2024 resolves to 2024-02-29. */
  lemma LeapDay2024(today: Date)
    requires IsValid(today)
    ensures ResolveDate(["29-02-2024"], today) == Ok("2024-02-29")
  {
    Joined("29", "02", "2024", "29-02-2024", "2024-02-29");
    TwoDigitFieldValues();
    FourDigitFieldValues();
    DmyAccepted(["29-02-2024"], "29", "02", "2024", today);
  }

  /** Year 0 is before datetime.MINYEAR. */
  lemma YearZeroRejected(today: Date)
    requires IsValid(today)
    ensures ResolveDate(["0000-01-01"], today) == Err(InvalidDate)
  {
    var y := "0000-01-01";
    assert y[..4] == "0000" && y[5..7] == "01" && y[8..] == "01";
    assert IsYmd(y);
    ValueOfFour(y[..4]);
    FirstDateArgDecides([y], 0, today);
    YmdIsFixedPoint(y);
  }

  /** A DD-MM-YYYY argument, first among the arguments, whose fields are not a
      real date is an error. */
  lemma DmyRejected(args: seq<string>, dd: string, mm: string, yyyy: string, today: Date)
    requires IsValid(today)
    requires AllDigits(dd) && AllDigits(mm) && AllDigits(yyyy)
    requires |dd| == 2 && |mm| == 2 && |yyyy| == 4
    requires |args| > 0 && args[0] == dd + "-" + mm + "-" + yyyy
    requires !IsValid(Date(Value(yyyy), Value(mm), Value(dd)))
    ensures ResolveDate(args, today) == Err(InvalidDate)
  {
    DmyFieldsAre(args[0], dd, mm, yyyy);
    FirstDateArgDecides(args, 0, today);
    DmyReadDayMonthYear(args[0]);
  }

  /** A DD-MM-YYYY argument, first among the arguments, whose fields form a real
      date resolves to the same fields in year, month, day order. */
  lemma DmyAccepted(args: seq<string>, dd: string, mm: string, yyyy: string, today: Date)
    requires IsValid(today)
    requires AllDigits(dd) && AllDigits(mm) && AllDigits(yyyy)
    requires |dd| == 2 && |mm| == 2 && |yyyy| == 4
    requires |args| > 0 && args[0] == dd + "-" + mm + "-" + yyyy
    requires IsValid(Date(Value(yyyy), Value(mm), Value(dd)))
    ensures ResolveDate(args, today) == Ok(yyyy + "-" + mm + "-" + dd)
  {
    DmyFieldsAre(args[0], dd, mm, yyyy);
    FirstDateArgDecides(args, 0, today);
    DmyReadDayMonthYear(args[0]);
  }

  /** Solver helper for the examples: names a concrete DD-MM-YYYY string and its
      ISO counterpart as joins of their fields, so the literals are not unfolded. */
  lemma Joined(dd: string, mm: string, yyyy: string, dmy: string, iso: string)
    requires dmy == dd + "-" + mm + "-" + yyyy && iso == yyyy + "-" + mm + "-" + dd
    ensures dmy == dd + "-" + mm + "-" + yyyy && iso == yyyy + "-" + mm + "-" + dd
  {
  }

  /** Solver helper for the examples: the values of their two-digit fields. */
  lemma TwoDigitFieldValues()
    ensures Value("00") == 0 && Value("01") == 1 && Value("02") == 2 && Value("06") == 6
    ensures Value("13") == 13 && Value("15") == 15 && Value("29") == 29 && Value("31") == 31
  {
    ValueOfTwo("00");
    ValueOfTwo("01");
    ValueOfTwo("02");
    ValueOfTwo("06");
    ValueOfTwo("13");
    ValueOfTwo("15");
    ValueOfTwo("29");
    ValueOfTwo("31");
  }

  /** Solver helper for the examples: the values of their four-digit fields. */
  lemma FourDigitFieldValues()
    ensures Value("0000") == 0 && Value("2023") == 2023 && Value("2024") == 2024
  {
    ValueOfFour("0000");
    ValueOfFour("2023");
    ValueOfFour("2024");
  }

  /** Splits a DD-MM-YYYY string built from three digit fields into those fields. */
  lemma DmyFieldsAre(s: string, dd: string, mm: string, yyyy: string)
    requires AllDigits(dd) && AllDigits(mm) && AllDigits(yyyy)
    requires |dd| == 2 && |mm| == 2 && |yyyy| == 4
    requires s == dd + "-" + mm + "-" + yyyy
    ensures IsDmy(s) && s[..2] == dd && s[3..5] == mm && s[6..] == yyyy
    ensures FieldsDmy(s) == Date(Value(yyyy), Value(mm), Value(dd))
  {
    var head := dd + "-" + mm + "-";
    assert s == head + yyyy && |head| == 6;
    assert s[6..] == yyyy && s[..6] == head;
    assert head[..2] == dd && head[3..5] == mm && head[2] == '-' && head[5] == '-';
    assert s[..2] == dd && s[3..5] == mm && s[2] == '-' && s[5] == '-';
  }
}
