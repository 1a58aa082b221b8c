# Wordle solutions bot, modelled in Dafny

The bot (`main.py`) finds the Wordle solution for one day and reports it. A run
does five things in order:

1. It resolves the date from the command line. `get_date` scans `sys.argv[1:]`
   and takes the first argument shaped `DD-MM-YYYY` or `YYYY-MM-DD`. It parses
   that argument with the field order its shape names and renders it in ISO
   form. With no date-shaped argument it uses today. A date-shaped argument
   that is not a real date ends the run with status 1.
2. It fetches `https://www.nytimes.com/svc/wordle/v2/<iso>.json`. Any status
   other than 200 ends the run with status 1.
3. It prints `Wordle Solution (<DD Month YYYY>): <solution>`.
4. If `NTFY_URL` is set, it posts `Wordle of the Day: <solution> 🔠` there. The
   POST carries a `Title` header (the line's parenthesised prefix) and
   `Tags: book,wordle,`. If `NTFY_URL` is not set, it prints three lines of
   guidance instead.
5. With `-w` anywhere in `sys.argv`, it writes the line to
   `solutions/Wordle_Solution_<iso>.txt`. It creates the directory first if
   that directory is missing.

The model has five modules:

- `Results`: `Option`, `Result`, and `Failure`, the reasons the date
  resolution or the puzzle request stops a run with status 1.
- `Decimal`: fixed-width digit strings, as `strptime` reads them and
  `isoformat`/`strftime` write them. Also `str` of a non-negative int.
- `Calendar`: `Date`, what `datetime.date` accepts (years 1 to 9999, month
  lengths, the Gregorian leap rule), the ISO rendering and the `%d %B %Y`
  rendering.
- `DateArgs`: `get_date`. `ResolveDate` is the reference definition; it is built on
  `FirstDateArg`, the first-match search. `GetDate` is the source's loop that
  breaks at the first date-shaped argument, and it is proved equal to
  `ResolveDate`.
- `Wordle`: the request URL, the status check, and the strings `main` builds.
  `RunMain` models one whole run.

`RunMain` takes the environment and the outside world as parameters:

- the full `argv`;
- the clock's date;
- the optional `NTFY_URL`;
- the puzzle service's reply (a status and the decoded string fields, or an
  exception);
- whether the POST raised;
- whether `solutions/` already exists.

It returns the exit status, the lines printed to standard output, the URL
fetched, the notification sent and the file written.

Behaviour of `main.py` a reader may not expect:

- Arguments that are not date-shaped are skipped, not rejected. A run given
  only `-w` uses today's date.
- Every argument after the program name is scanned, wherever it stands. Only
  the first date-shaped one counts.
- `re.match` with `$` also accepts a date shape followed by one `\n`. Such an
  argument is selected, `strptime` then rejects the newline, and the run exits
  with status 1.
- A POST that raises (connection error, bad URL, including an empty `NTFY_URL`)
  is not caught. The run ends with status 1 after printing the line, and no
  file is written. A POST answered with a non-2xx status is ignored.
- A 200 reply without a `solution` key raises `KeyError` before anything is
  printed. The run ends with status 1.
- `"-w" in sys.argv` looks at the whole of `argv`, including the program name.

## Model

| member | source | states |
|---|---|---|
| `Calendar.DaysInMonth` | main.py:53-56 | months have 28 to 31 days; exactly February of a leap year (divisible by 4, not by 100 unless by 400) has 29 |
| `Calendar.MonthNameInjective` | main.py:117 | no two months share a `%B` name |
| `Calendar.DisplayDateInjective` | main.py:117 | two valid dates with the same `%d %B %Y` rendering are the same date |
| `Calendar.IsoFormatInjective` | main.py:63 | two valid dates with the same `isoformat()` are the same date |
| `Decimal.ValueOfPadded` | main.py:63 | reading back a zero-padded field gives the number, when it fits the width |
| `Decimal.PaddedOfValue` | main.py:53-56 | re-padding the value of a digit field to its width gives the field back |
| `Decimal.ValueOfDecimal` | main.py:90 | the decimal rendering of a status code reads back as that code |
| `Decimal.Value` | main.py:53-56 | a digit string of width w has a value below 10^w |
| `Decimal.Padded` | main.py:63 | a field rendered at width w has exactly w digits |
| `Decimal.ToDecimal` | main.py:90 | `str` of a non-negative status code is a non-empty digit string without a leading zero |
| `Calendar.IsoFormat` | main.py:63 | `isoformat()` of a valid date is ten characters: four digits, a hyphen, two digits, a hyphen, two digits |
| `Calendar.MonthName` | main.py:117 | every `%B` month name has 3 to 9 letters |
| `Calendar.DisplayDate` | main.py:117 | the `%d %B %Y` rendering is two day digits, a space, the month name, a space and four year digits long |
| `Calendar.ValidDayByDay` | main.py:53-57 | `datetime` raises `ValueError` unless the year is 1 to 9999, the month 1 to 12 and the day at least 1, and the day is at most 28, or 29 outside February of a common year, or 30 outside February, or 31 in January, March, May, July, August, October or December |
| `DateArgs.ProgramNameNotScanned` | main.py:40 | the program name `sys.argv[0]` is never taken as the date, even when it is date-shaped: putting any program name in front of the arguments leaves the result unchanged |
| `DateArgs.MatchesDmyCharwise` | main.py:42 | the `^\d{2}-\d{2}-\d{4}$` test holds exactly for ten characters, or those ten and one final newline, with hyphens at positions 2 and 5 and ASCII digits everywhere else |
| `DateArgs.MatchesYmdCharwise` | main.py:42 | the `^\d{4}-\d{2}-\d{2}$` test holds exactly for ten characters, or those ten and one final newline, with hyphens at positions 4 and 7 and ASCII digits everywhere else; `IsDateShaped` is the disjunction of the two tests |
| `DateArgs.FieldsDmy` | main.py:53 | the day, month and year read from `DD-MM-YYYY` are each below 10 to the power of the field's width, and each, zero-padded back to that width, gives the argument's own digits: no digit is lost or changed |
| `DateArgs.FieldsYmd` | main.py:56 | the year, month and day read from `YYYY-MM-DD` are each below 10 to the power of the field's width, and each, zero-padded back to that width, gives the argument's own digits |
| `DateArgs.ParseDmy` | main.py:52-53 | `strptime(s, "%d-%m-%Y")` succeeds exactly when s has no trailing newline and its day, month, year fields form a valid date; the date it returns, rendered by `isoformat`, is the argument's year, month and day digits reordered |
| `DateArgs.ParseYmd` | main.py:55-56 | `strptime(s, "%Y-%m-%d")` succeeds exactly when s has no trailing newline and its year, month, day fields form a valid date; the date it returns renders back through `isoformat` as the argument itself |
| `DateArgs.ParseDateArg` | main.py:50-60 | the only failure of the parse step is the invalid-date exit |
| `DateArgs.FirstDateArg` | main.py:40-44 | the index returned is date-shaped and no earlier argument is; None means no argument is date-shaped |
| `DateArgs.ResolveDate` | main.py:24-63 | a failure is always the invalid-date exit and happens only when some argument is date-shaped |
| `DateArgs.GetDate` | main.py:24-63 | the scan-and-break loop returns exactly `ResolveDate`; on success the result is a `YYYY-MM-DD` string naming a valid date |
| `DateArgs.IsoFormatParses` | main.py:63 | the ISO rendering of a valid date is `YYYY-MM-DD`-shaped and reads back as the date |
| `DateArgs.FieldsYmdFormats` | main.py:55-63 | a valid `YYYY-MM-DD` string re-rendered through `isoformat` is itself |
| `DateArgs.ShapesDisjoint` | main.py:42 | no argument matches both regexes, so the branch at line 52 is decided by shape alone |
| `DateArgs.ResolvedIsValidIso` | main.py:45-63 | every successful resolution is a `YYYY-MM-DD` string naming a valid date |
| `DateArgs.NoDateArgMeansToday` | main.py:45-47 | with no date-shaped argument the result is today's ISO date |
| `DateArgs.FirstDateArgDecides` | main.py:40-44 | the first date-shaped argument alone determines the result |
| `DateArgs.NonDateArgSkipped` | main.py:40-44 | a leading argument that is not date-shaped (such as `-w`) does not change the result |
| `DateArgs.LaterArgsIgnored` | main.py:40-44 | arguments after the first date-shaped one do not change the result |
| `DateArgs.DmyReadDayMonthYear` | main.py:52-53 | a `DD-MM-YYYY` string is accepted if and only if its fields read day, month, year form a valid date, and the result is `YYYY-MM-DD` built from its own digits |
| `DateArgs.YmdIsFixedPoint` | main.py:55-56 | a `YYYY-MM-DD` string is accepted if and only if it names a valid date, and the result is the string itself |
| `DateArgs.TrailingNewlineRejected` | main.py:42-60 | a date shape followed by a newline passes the regex and is then an invalid-date exit |
| `DateArgs.ResolveIsIdempotent` | main.py:24-63 | feeding a result back in, ahead of any arguments and with any clock date, gives the same result |
| `DateArgs.DayFirstExample` | main.py:40-63 | `-w 01-02-2024` resolves to `2024-02-01` |
| `DateArgs.FirstOfFebruary` | main.py:52-63 | `01-02-2024` alone resolves to `2024-02-01` |
| `DateArgs.MonthThirteenRejected` | main.py:57-60 | `01-13-2024` is an invalid-date exit |
| `DateArgs.DayZeroRejected` | main.py:57-60 | `00-01-2024` is an invalid-date exit |
| `DateArgs.ThirtyFirstOfFebruaryRejected` | main.py:57-60 | `31-02-2024` is an invalid-date exit |
| `DateArgs.LeapDayExamples` | main.py:52-60 | `29-02-2023` is an invalid-date exit and `29-02-2024` resolves to `2024-02-29` |
| `DateArgs.LeapDay2024` | main.py:52-63 | `29-02-2024` resolves to `2024-02-29` |
| `DateArgs.YearZeroRejected` | main.py:55-60 | `0000-01-01` is an invalid-date exit |
| `Wordle.RequestUrl` | main.py:82 | states only the length: base URL, date and `.json`; the content is pinned by `UrlRoundTrip` |
| `Wordle.UrlRoundTrip` | main.py:82 | the ISO date can be read back unchanged from the request URL |
| `Wordle.UpstreamMessage` | main.py:90 | states only the length; the status digits in it are pinned by `UpstreamMessageNamesStatus` |
| `Wordle.SolutionText` | main.py:120 | states only the length; the content is pinned by `SolutionTextExtendsTitle` and `SuccessfulRun` |
| `Wordle.NotifyTitle` | main.py:131 | states only the length; `SolutionTextExtendsTitle` shows it is the solution line's prefix |
| `Wordle.SolutionPath` | main.py:144 | states only the length; `SolutionPathInjective` shows it names the date uniquely |
| `Wordle.UpstreamMessageNamesStatus` | main.py:88-90 | the diagnostic contains the status code's digits, which read back as the code |
| `Wordle.NotFoundMessage` | main.py:90 | a 404 is reported as `There was a 404 error ...` |
| `Wordle.NotifyBody` | main.py:129 | the ntfy body holds the solution word unmodified after `Wordle of the Day: ` and ends with U+1F520 |
| `Wordle.SolutionTextExtendsTitle` | main.py:120-131 | the solution line is the `Title` header, `": "`, then the solution word unmodified |
| `Wordle.SolutionPathInjective` | main.py:144 | different dates are saved under different file names |
| `Wordle.DisplayAgreesWithIso` | main.py:116-117 | the display date shows the ISO day, then the month name, then the ISO year |
| `Wordle.DisplayEchoesDmyArgument` | main.py:52-117 | for a valid `DD-MM-YYYY` argument the display date starts with its day digits and ends with its year digits |
| `Wordle.RunMain` | main.py:98-154 | the exit status is 0 or 1; a URL is fetched exactly when the date resolves; a notification needs `NTFY_URL`; a file needs `-w` and a successful run |
| `Wordle.InvalidDateStopsRun` | main.py:57-60 | an invalid date prints only the format reminder and exits 1, with no request, notification or file |
| `Wordle.UpstreamErrorStopsRun` | main.py:85-92 | a non-200 status exits 1 after one diagnostic naming the status; the resolved URL was fetched; nothing is posted or saved |
| `Wordle.ExitZeroIff` | main.py:85-154 | the run exits 0 if and only if the date resolves, the reply is 200 (every other status or an exception from the request stops it) with a solution, and no POST raised |
| `Wordle.SuccessfulRun` | main.py:116-154 | a run whose date resolves, whose reply is 200 with a solution and whose POST did not raise exits 0 and prints the solution line first; it notifies exactly when `NTFY_URL` is set, with the title and tags given, and prints the three guidance lines exactly when it is not; it saves exactly when `-w` is given, under the ISO date, with the printed line as content, and then prints the directory-creation line exactly when `solutions/` was missing and the `Solution saved to <path>` line; nothing else is printed |
| `Wordle.SavedRunWithoutNtfy` | main.py:143-154 | with `-w` and no `NTFY_URL`, a 200 reply prints the solution line and saves that same line under the ISO date |
| `Wordle.ProudExample` | main.py:116-153 | `15-06-2024 -w` with solution `proud` prints and saves `Wordle Solution (15 June 2024): proud` to `solutions/Wordle_Solution_2024-06-15.txt` |

## Left out

- Network I/O: the `requests.get`/`requests.post` calls, timeouts, and JSON
  decoding (main.py:85, 91, 95, 127-135). The reply comes in as a status plus
  the decoded string fields, or as an exception. Whether the POST raised comes
  in as a flag.
- The JSON value printed after the upstream diagnostic (main.py:91): its
  `repr` form is not modelled. Only the first diagnostic line is in `stdout`.
- A body that is not JSON, and a `solution` that is not a string. The decoded
  body is modelled as a map from keys to strings.
- Environment loading (`load_dotenv`, `os.getenv`, main.py:104-107):
  `NTFY_URL` is an optional parameter.
- Filesystem effects (main.py:147-154): directory creation and file writing
  are modelled only as the path, the content and the printed messages. Whether
  the directory already exists is a parameter. A failing write is not
  modelled.
- The clock: `date.today()` is a parameter. Its validity is the one
  precondition of the resolver.
- Python's `\d` also matches non-ASCII digits. The model's digits are ASCII
  `0`-`9` only.
- `Calendar.DisplayDate` renders the year as four zero-padded digits. This is
  the same as `strftime("%Y")` for years 1000 to 9999, but the C library may
  leave years below 1000 unpadded. `%B` is taken in English, whatever the
  locale.
- The ntfy body is modelled as text. Its UTF-8 encoding is not modelled.
- Standard error output (tracebacks) and Python's exit status for uncaught
  exceptions are modelled only as exit status 1.
