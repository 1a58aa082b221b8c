/** One run of the bot (main.py, get_wordle_data and main): resolve the date,
    request that day's puzzle, print the solution line, then either post it to
    an ntfy endpoint or print how to configure one, and with -w save the line
    to a file. Network and filesystem effects are inputs and outputs here: the
    reply of the puzzle service, whether the POST raised and whether the
    solutions directory already exists come in as parameters, and the run
    yields its exit status, its standard output lines, the URL it fetched, the
    notification it sent and the file it wrote. */
module Wordle {
  import opened Results
  import opened Decimal
  import opened Calendar
  import opened DateArgs

  // ---------------------------------------------------------------------------
  // The puzzle request (get_wordle_data).

  const ApiBase := "https://www.nytimes.com/svc/wordle/v2/"
  const ApiSuffix := ".json"

  /** The URL requested for an ISO date. */
  function RequestUrl(isoDate: string): (url: string)
    ensures |url| == |ApiBase| + |isoDate| + |ApiSuffix|
  {
    ApiBase + isoDate + ApiSuffix
  }

  /** The date a puzzle URL asks for, when it has the request's form. */
  function DateOfUrl(url: string): (r: Option<string>)
    ensures r.Some? ==> RequestUrl(r.value) == url
  {
    var n := |ApiBase| + |ApiSuffix|;
    if |url| >= n && url[..|ApiBase|] == ApiBase && url[|url| - |ApiSuffix|..] == ApiSuffix then
      var d := url[|ApiBase|..|url| - |ApiSuffix|];
      assert url == url[..|ApiBase|] + d + url[|url| - |ApiSuffix|..];
      Some(d)
    else None
  }

  /** The requested URL carries the date unchanged: reading it back gives the date. */
  lemma UrlRoundTrip(isoDate: string)
    ensures DateOfUrl(RequestUrl(isoDate)) == Some(isoDate)
  {
    var url := RequestUrl(isoDate);
    assert url[..|ApiBase|] == ApiBase;
    assert url[|url| - |ApiSuffix|..] == ApiSuffix;
    assert url[|ApiBase|..|url| - |ApiSuffix|] == isoDate;
  }

  /** What requests.get came back with: a status and the decoded JSON object
      (string-valued fields only), or an exception (timeout, connection error). */
  datatype Reply = Reply(status: nat, body: map<string, string>) | Raised

  /** main.py:85-95: only status 200 yields the body; every other status ends the run. */
  function CheckReply(reply: Reply): (r: Result<map<string, string>>)
    ensures r.Ok? <==> reply.Reply? && reply.status == 200
    ensures r.Ok? ==> r.value == reply.body
    ensures r.Err? ==> r.failure == (if reply.Raised? then RequestRaised else Upstream(reply.status))
  {
    match reply
    case Raised => Err(RequestRaised)
    case Reply(status, body) => if status != 200 then Err(Upstream(status)) else Ok(body)
  }

  const UpstreamPrefix := "There was a "
  const UpstreamSuffix := " error when getting the data from the Wordle API"

  /** The diagnostic printed for a status other than 200. */
  function UpstreamMessage(status: nat): (m: string)
    ensures |m| == |UpstreamPrefix| + |ToDecimal(status)| + |UpstreamSuffix|
  {
    UpstreamPrefix + ToDecimal(status) + UpstreamSuffix
  }

  /** The diagnostic names the status: the digits after "There was a " read back as it. */
  lemma UpstreamMessageNamesStatus(status: nat)
    ensures var m := UpstreamMessage(status);
            var digits := m[|UpstreamPrefix|..|UpstreamPrefix| + |ToDecimal(status)|];
            AllDigits(digits) && Value(digits) == status
  {
    var m := UpstreamMessage(status);
    assert m[|UpstreamPrefix|..|UpstreamPrefix| + |ToDecimal(status)|] == ToDecimal(status);
    ValueOfDecimal(status);
  }

  /** A 404 reply is reported with "404" in the diagnostic. */
  lemma NotFoundMessage()
    ensures UpstreamMessage(404) == UpstreamPrefix + "404" + UpstreamSuffix
  {
    assert DigitChar(4) == '4' && DigitChar(0) == '0';
    assert ToDecimal(404) == ToDecimal(40) + ['4'];
    assert ToDecimal(40) == ToDecimal(4) + ['0'];
    assert ToDecimal(404) == "404";
  }

  // ---------------------------------------------------------------------------
  // The strings main builds.

  /** The solution line: "Wordle Solution (<display date>): <solution>". */
  function SolutionText(display: string, solution: string): (line: string)
    ensures |line| == 17 + |display| + 3 + |solution|
  {
    "Wordle Solution (" + display + "): " + solution
  }

  /** The Title header of the notification. */
  function NotifyTitle(display: string): (title: string)
    ensures |title| == 17 + |display| + 1
  {
    "Wordle Solution (" + display + ")"
  }

  /** The notification body, solution then a space and U+1F520 (input symbol for
      latin capital letters). */
  function NotifyBody(solution: string): (body: string)
    ensures |body| == 19 + |solution| + 2
    ensures body[..19] == "Wordle of the Day: "
    ensures body[19..19 + |solution|] == solution
    ensures body[|body| - 2] == ' ' && body[|body| - 1] == '\U{1F520}'
  {
    "Wordle of the Day: " + solution + " \U{1F520}"
  }

  const NotifyTags := "book,wordle,"

  /** Where -w saves the line. */
  function SolutionPath(isoDate: string): (path: string)
    ensures |path| == 26 + |isoDate| + 4
  {
    "solutions/Wordle_Solution_" + isoDate + ".txt"
  }

  /** The solution line is the notification title, a colon and a space, then the
      solution word exactly as the service sent it. */
  lemma SolutionTextExtendsTitle(display: string, solution: string)
    ensures SolutionText(display, solution) == NotifyTitle(display) + ": " + solution
    ensures SolutionText(display, solution)[|SolutionText(display, solution)| - |solution|..] == solution
  {
    var line := SolutionText(display, solution);
    assert line == NotifyTitle(display) + ": " + solution;
    assert line[|line| - |solution|..] == solution;
  }

  /** Different ISO dates are saved under different file names. */
  lemma SolutionPathInjective(a: string, b: string)
    requires SolutionPath(a) == SolutionPath(b)
    ensures a == b
  {
    var p := SolutionPath(a);
    assert a == p[26..|p| - 4];
    assert b == SolutionPath(b)[26..|p| - 4];
  }

  /** The long date main.py:117 renders for a resolved ISO date shows the ISO day
      first, the month by name and the ISO year last. */
  lemma DisplayAgreesWithIso(iso: string)
    requires IsYmd(iso) && IsValid(FieldsYmd(iso))
    ensures var s := DisplayDate(FieldsYmd(iso));
            && s[..2] == iso[8..]
            && s[2..3 + |MonthName(FieldsYmd(iso).month)|] == " " + MonthName(FieldsYmd(iso).month)
            && s[|s| - 5..] == " " + iso[..4]
  {
    var d := FieldsYmd(iso);
    PaddedOfValue(iso[8..]);
    PaddedOfValue(iso[..4]);
    var s := DisplayDate(d);
    assert s[..2] == Padded(d.day, 2);
    assert s[|s| - 5..] == " " + Padded(d.year, 4);
  }

  /** For a DD-MM-YYYY argument, the printed date keeps the argument's day
      digits and year digits: 15-06-2024 prints as "15 June 2024". */
  lemma DisplayEchoesDmyArgument(s: string)
    requires IsDmy(s) && IsValid(FieldsDmy(s))
    ensures ParseDateArg(s).Ok?
    ensures var iso := ParseDateArg(s).value;
            IsYmd(iso) && FieldsYmd(iso) == FieldsDmy(s)
    ensures var disp := DisplayDate(FieldsDmy(s));
            disp[..2] == s[..2] && disp[|disp| - 4..] == s[6..]
  {
    var d := FieldsDmy(s);
    assert MatchesDmy(s);
    assert ParseDmy(s) == Some(d);
    assert ParseDateArg(s) == Ok(IsoFormat(d));
    IsoFormatParses(d);
    var disp := DisplayDate(d);
    assert disp[..2] == Padded(d.day, 2);
    assert disp[|disp| - 4..] == Padded(d.year, 4);
  }

  // ---------------------------------------------------------------------------
  // The whole run (main).

  /** The POST main sends to the ntfy endpoint. */
  datatype Notification = Notification(url: string, body: string, title: string, tags: string)

  /** The file -w writes. */
  datatype SavedFile = SavedFile(path: string, content: string)

  /** What one run leaves behind. */
  datatype Outcome = Outcome(
    exitCode: nat,
    stdout: seq<string>,
    fetched: Option<string>,
    notification: Option<Notification>,
    saved: Option<SavedFile>)

  const InvalidDateMessage := "Invalid date format. Please use either DD-MM-YYYY or YYYY-MM-DD."

  /** Printed instead of posting when NTFY_URL is not set. */
  const NtfyGuidance := [
    "NTFY_URL is not set in the environment variables",
    "Please set it to the URL of your ntfy instance if you want to receive push notifications.",
    "More Info: https://docs.ntfy.sh"]

  /** main.py:104-154 for the command line argv (program name included), the clock's
      date today, the NTFY_URL setting, the puzzle service's reply, whether the
      POST raised and whether the solutions directory exists. */
  function RunMain(argv: seq<string>, today: Date, ntfyUrl: Option<string>, reply: Reply,
                   postRaises: bool, solutionsDirExists: bool): (o: Outcome)
    requires IsValid(today)
    ensures o.exitCode == 0 || o.exitCode == 1
    ensures o.fetched.Some? <==> ResolveDate(Args(argv), today).Ok?
    ensures o.notification.Some? ==> ntfyUrl.Some? && o.fetched.Some?
    ensures o.saved.Some? ==> "-w" in argv && o.exitCode == 0
  {
    match ResolveDate(Args(argv), today)
    case Err(_) => Outcome(1, [InvalidDateMessage], None, None, None)
    case Ok(iso) =>
      var url := RequestUrl(iso);
      match CheckReply(reply)
      case Err(f) =>
        Outcome(1, if f.Upstream? then [UpstreamMessage(f.status)] else [], Some(url), None, None)
      case Ok(body) =>
        if "solution" !in body then
          // wordle['solution'] raises KeyError before anything is printed
          Outcome(1, [], Some(url), None, None)
        else
          ResolvedIsValidIso(Args(argv), today);
          // main.py:116 reads the ISO string back with strptime
          var date := ParseYmd(iso).value;
          var display := DisplayDate(date);
          var solution := body["solution"];
          var line := SolutionText(display, solution);
          var notification :=
            if ntfyUrl.Some? then Some(Notification(ntfyUrl.value, NotifyBody(solution), NotifyTitle(display), NotifyTags))
            else None;
          if ntfyUrl.Some? && postRaises then
            Outcome(1, [line], Some(url), notification, None)
          else
            var guidance := if ntfyUrl.None? then NtfyGuidance else [];
            if "-w" in argv then
              var path := SolutionPath(iso);
              var creating := if solutionsDirExists then [] else ["Creating 'solutions' directory..."];
              Outcome(0, [line] + guidance + creating + ["Solution saved to " + path],
                      Some(url), notification, Some(SavedFile(path, line)))
            else
              Outcome(0, [line] + guidance, Some(url), notification, None)
  }

  /** A date argument that is not a real date ends the run with status 1 before
      any request, printing only the format reminder. */
  lemma InvalidDateStopsRun(argv: seq<string>, today: Date, ntfyUrl: Option<string>, reply: Reply,
                            postRaises: bool, dirExists: bool)
    requires IsValid(today) && ResolveDate(Args(argv), today).Err?
    ensures var o := RunMain(argv, today, ntfyUrl, reply, postRaises, dirExists);
            o.exitCode == 1 && o.stdout == [InvalidDateMessage]
            && o.fetched.None? && o.notification.None? && o.saved.None?
  {
  }

  /** A status other than 200 ends the run with status 1 after printing a
      diagnostic naming the status; nothing is posted or saved. */
  lemma UpstreamErrorStopsRun(argv: seq<string>, today: Date, ntfyUrl: Option<string>, reply: Reply,
                              postRaises: bool, dirExists: bool)
    requires IsValid(today) && ResolveDate(Args(argv), today).Ok?
    requires reply.Reply? && reply.status != 200
    ensures var o := RunMain(argv, today, ntfyUrl, reply, postRaises, dirExists);
            && o.exitCode == 1 && o.notification.None? && o.saved.None?
            && o.fetched == Some(RequestUrl(ResolveDate(Args(argv), today).value))
            && |o.stdout| == 1
            && var m := o.stdout[0];
               var k := |ToDecimal(reply.status)|;
               |m| >= 12 + k && AllDigits(m[12..12 + k]) && Value(m[12..12 + k]) == reply.status
  {
    UpstreamMessageNamesStatus(reply.status);
  }

  /** The run succeeds exactly when the date resolves, the service answers 200 with
      a solution, and either no ntfy endpoint is set or posting to it did not raise. */
  lemma ExitZeroIff(argv: seq<string>, today: Date, ntfyUrl: Option<string>, reply: Reply,
                    postRaises: bool, dirExists: bool)
    requires IsValid(today)
    ensures RunMain(argv, today, ntfyUrl, reply, postRaises, dirExists).exitCode == 0 <==>
              && ResolveDate(Args(argv), today).Ok?
              && reply.Reply? && reply.status == 200 && "solution" in reply.body
              && !(ntfyUrl.Some? && postRaises)
  {
  }

  /** A run whose date resolves, whose reply is 200 with a solution and whose POST,
      if any, did not raise exits 0. The first line printed is the solution line for
      the resolved date and the unmodified solution word; a notification is sent
      exactly when NTFY_URL is set, titled with that line's prefix, and the guidance
      is printed exactly when it is not; a file is saved exactly when -w is on the
      command line, under the ISO date, holding exactly that line, and the run then
      reports the directory it had to create and the file it wrote. Nothing else
      is printed. */
  lemma SuccessfulRun(argv: seq<string>, today: Date, ntfyUrl: Option<string>, reply: Reply,
                      postRaises: bool, dirExists: bool)
    requires IsValid(today) && ResolveDate(Args(argv), today).Ok?
    requires reply.Reply? && reply.status == 200 && "solution" in reply.body
    requires ntfyUrl.None? || !postRaises
    ensures var o := RunMain(argv, today, ntfyUrl, reply, postRaises, dirExists);
            var iso := ResolveDate(Args(argv), today).value;
            var solution := reply.body["solution"];
            && IsYmd(iso) && IsValid(FieldsYmd(iso))
            && o.exitCode == 0
            && o.fetched == Some(RequestUrl(iso))
            && |o.stdout| >= 1
            && o.stdout[0] == SolutionText(DisplayDate(FieldsYmd(iso)), solution)
            && o.stdout[0] == NotifyTitle(DisplayDate(FieldsYmd(iso))) + ": " + solution
            && (o.notification.Some? <==> ntfyUrl.Some?)
            && (o.notification.Some? ==>
                  o.notification.value == Notification(ntfyUrl.value, NotifyBody(solution),
                                                       NotifyTitle(DisplayDate(FieldsYmd(iso))), "book,wordle,"))
            && o.stdout == [o.stdout[0]]
                            + (if ntfyUrl.None? then NtfyGuidance else [])
                            + (if "-w" in argv then
                                 (if dirExists then [] else ["Creating 'solutions' directory..."])
                                 + ["Solution saved to " + SolutionPath(iso)]
                               else [])
            && (o.saved.Some? <==> "-w" in argv)
            && (o.saved.Some? ==> o.saved.value == SavedFile(SolutionPath(iso), o.stdout[0]))
  {
    var iso := ResolveDate(Args(argv), today).value;
    ResolvedIsValidIso(Args(argv), today);
    SolutionTextExtendsTitle(DisplayDate(FieldsYmd(iso)), reply.body["solution"]);
  }

  /** A run that resolves to iso, gets solution with status 200, has no ntfy
      endpoint and was given -w: it prints, and saves, the solution line. */
  lemma SavedRunWithoutNtfy(argv: seq<string>, today: Date, reply: Reply, dirExists: bool,
                            iso: string, solution: string)
    requires IsValid(today) && ResolveDate(Args(argv), today) == Ok(iso)
    requires reply.Reply? && reply.status == 200 && "solution" in reply.body
    requires reply.body["solution"] == solution && "-w" in argv
    ensures var o := RunMain(argv, today, None, reply, false, dirExists);
            && IsYmd(iso) && IsValid(FieldsYmd(iso))
            && o.exitCode == 0 && o.fetched == Some(RequestUrl(iso))
            && o.stdout[0] == SolutionText(DisplayDate(FieldsYmd(iso)), solution)
            && o.saved == Some(SavedFile(SolutionPath(iso), o.stdout[0]))
  {
    ResolvedIsValidIso(Args(argv), today);
  }

  /** The run for 15 June 2024 with -w, no ntfy endpoint, and the service's answer
      "proud" (the record for that day has id 1691, print_date 2024-06-15 and
      editor Tracy Bennett besides): the line printed and saved is
      "Wordle Solution (15 June 2024): proud". */
  lemma ProudExample(argv: seq<string>, reply: Reply, today: Date, dirExists: bool)
    requires IsValid(today)
    requires argv == ["main.py", "15-06-2024", "-w"]
    requires reply.Reply? && reply.status == 200
    requires "solution" in reply.body && reply.body["solution"] == "proud"
    ensures var o := RunMain(argv, today, None, reply, false, dirExists);
            && o.exitCode == 0
            && o.fetched == Some("https://www.nytimes.com/svc/wordle/v2/2024-06-15.json")
            && o.stdout[0] == "Wordle Solution (15 June 2024): proud"
            && o.saved == Some(SavedFile("solutions/Wordle_Solution_2024-06-15.txt",
                                         "Wordle Solution (15 June 2024): proud"))
  {
    ProudRun(argv, reply, today, dirExists);
    MidJuneStrings();
  }

  /** The strings main builds for 2024-06-15 and "proud", spelled out. */
  lemma MidJuneStrings()
    ensures SolutionText(DisplayDate(Date(2024, 6, 15)), "proud") == "Wordle Solution (15 June 2024): proud"
    ensures SolutionPath("2024-06-15") == "solutions/Wordle_Solution_2024-06-15.txt"
    ensures RequestUrl("2024-06-15") == "https://www.nytimes.com/svc/wordle/v2/2024-06-15.json"
  {
    MidJuneLine();
    MidJunePath();
    MidJuneUrl();
  }

  lemma MidJuneLine()
    ensures SolutionText(DisplayDate(Date(2024, 6, 15)), "proud") == "Wordle Solution (15 June 2024): proud"
  {
    MidJuneDisplay();
  }

  lemma MidJunePath()
    ensures SolutionPath("2024-06-15") == "solutions/Wordle_Solution_2024-06-15.txt"
  {
  }

  lemma MidJuneUrl()
    ensures RequestUrl("2024-06-15") == "https://www.nytimes.com/svc/wordle/v2/2024-06-15.json"
  {
  }

  /** The run of ProudExample before its strings are spelled out. */
  lemma ProudRun(argv: seq<string>, reply: Reply, today: Date, dirExists: bool)
    requires IsValid(today)
    requires argv == ["main.py", "15-06-2024", "-w"]
    requires reply.Reply? && reply.status == 200
    requires "solution" in reply.body && reply.body["solution"] == "proud"
    ensures var o := RunMain(argv, today, None, reply, false, dirExists);
            && o.exitCode == 0
            && o.fetched == Some(RequestUrl("2024-06-15"))
            && o.stdout[0] == SolutionText(DisplayDate(Date(2024, 6, 15)), "proud")
            && o.saved == Some(SavedFile(SolutionPath("2024-06-15"), o.stdout[0]))
  {
    assert Args(argv) == ["15-06-2024", "-w"];
    MidJuneResolves(today);
    assert "-w" in argv by { assert argv[2] == "-w"; }
    SavedRunWithoutNtfy(argv, today, reply, dirExists, "2024-06-15", "proud");
  }

  /** 15-06-2024 followed by -w resolves to 2024-06-15. */
  lemma MidJuneResolves(today: Date)
    requires IsValid(today)
    ensures ResolveDate(["15-06-2024", "-w"], today) == Ok("2024-06-15")
    ensures IsYmd("2024-06-15") && FieldsYmd("2024-06-15") == Date(2024, 6, 15)
  {
    Joined("15", "06", "2024", "15-06-2024", "2024-06-15");
    TwoDigitFieldValues();
    FourDigitFieldValues();
    DmyAccepted(["15-06-2024", "-w"], "15", "06", "2024", today);
    IsoFormatParses(Date(2024, 6, 15));
    MidJuneIso();
  }

  /** 2024-06-15 is the ISO rendering of 15 June 2024. */
  lemma MidJuneIso()
    ensures IsoFormat(Date(2024, 6, 15)) == "2024-06-15"
  {
    TwoDigitFieldValues();
    FourDigitFieldValues();
    PaddedOfValue("15");
    PaddedOfValue("06");
    PaddedOfValue("2024");
  }

  /** 2024-06-15 is displayed as "15 June 2024". */
  lemma MidJuneDisplay()
    ensures DisplayDate(Date(2024, 6, 15)) == "15 June 2024"
  {
    TwoDigitFieldValues();
    FourDigitFieldValues();
    PaddedOfValue("15");
    PaddedOfValue("2024");
  }
}
