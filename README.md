# Day-summary agenda, modelled in Dafny

`calendar/day-summary/day-summary.py` prints a one-day agenda for a receipt
printer. It reads a list of calendars (name, iCalendar URL, whether to show
descriptions and locations) and fetches each feed. It keeps the events that
start on the target date and splits them into timed events and all-day
tasks. The output is a header (`Agenda for April 27, 2024` underlined with
`=`), then one block per calendar that has something on that day. A block is
the calendar's name and a `-` underline, then the timed events sorted by
their `HH:MM` start, a blank line when there are also all-day tasks, then
the tasks sorted by name, and a closing blank line. Each record is a
checkbox line, optionally followed by indented `Description:` and
`Location:` lines.

The model has one module per part of that program:

| file | module | models |
|---|---|---|
| `wrappers.dfy` | `Wrappers` | `Option` (Python's `None`) |
| `text.dfy` | `Text` | `str.strip()` over Python's whitespace set, string order, `%02d`/decimal digits, `c * n`, `"\n".join` |
| `sorting.dfy` | `Sorting` | `sorted(xs, key=...)`, a stable sort on string keys |
| `dates.dfy` | `Dates` | `datetime.date` values and `%B` month names |
| `events.dfy` | `Events` | `parse_events`: selection and normalisation of one feed's events |
| `formatting.dfy` | `Formatting` | `format_event` and `format_header` |
| `agenda.dfy` | `Agenda` | the calendar loop of `main`, building the list of strings it prints |

Fetching and parsing a feed are collaborators outside the model. `fetch`
is a function from URL to `Option<string>` (`None` for a failed request).
`parse` is a function from text to a `Feed`, which holds the parsed events
or is `Unparsable`. The report is the list of strings `main` prints, one
string per `print` call. The header string and a record with a Description
or Location line each print as several lines.

Three behaviours of the program are easy to misread:

- Events are kept when their start date, in the event's own zone, equals
  the target date. The date is taken before the conversion to the
  configured zone; only the `HH:MM` time is converted.
- A name made only of whitespace is truthy, so it is stripped to `""`. It
  does not become `"No Title"` (`Events.WhitespaceNameIsNotUntitled`).
- The "No events or tasks found" message is never printed. `output_lines`
  always starts with the header and a blank line, so it is never empty
  (`Agenda.ReportLines`).

## Model

| member | source | states |
|---|---|---|
| Text.Strip | calendar/day-summary/day-summary.py:54-57 | `str.strip()`: the input is whitespace, the result and whitespace in that order; the result neither starts nor ends with whitespace; it is empty exactly when the input is all whitespace |
| Text.StripIdempotent | calendar/day-summary/day-summary.py:56-57 | stripping an already stripped text changes nothing |
| Text.LexLeTotal | calendar/day-summary/day-summary.py:184 | any two strings are comparable under Python's string order |
| Text.LexLeTransitive | calendar/day-summary/day-summary.py:184 | Python's string order is transitive |
| Text.LexLeAntisymmetric | calendar/day-summary/day-summary.py:184 | two strings each not greater than the other are equal |
| Text.TwoDigits | calendar/day-summary/day-summary.py:66 | `%H`, `%M` and `%d` give two digit characters that read back as the number |
| Text.DecimalRoundTrip | calendar/day-summary/day-summary.py:108 | the decimal digits written for `%Y` read back as the year |
| Text.TakeUntil | calendar/day-summary/day-summary.py:111 | the text before the first stop character is a prefix that holds no stop character, followed by the stop or the end |
| Events.NormalizeOptional | calendar/day-summary/day-summary.py:56-57 | a description or location is absent exactly when it is missing or all whitespace; otherwise it is the stripped text, which is non-empty |
| Events.NameNormalization | calendar/day-summary/day-summary.py:54 | a missing or empty name becomes "No Title"; a whitespace-only name becomes ""; any other name is stripped to a non-empty text without surrounding whitespace |
| Events.WhitespaceNameIsNotUntitled | calendar/day-summary/day-summary.py:54 | a name of three spaces is rendered as "", not as "No Title" |
| Events.TimeString | calendar/day-summary/day-summary.py:65-66 | `strftime('%H:%M')` is a valid `HH:MM` string standing for the same minute of the day |
| Events.TimeOrderIsClockOrder | calendar/day-summary/day-summary.py:184 | on `HH:MM` strings, Python's string order is the order of the clock, in both directions |
| Events.ParseEvents | calendar/day-summary/day-summary.py:39-77 | an unparsable feed gives two empty lists; otherwise the timed list and the all-day list hold the normalised records of the events on the target date of that kind, in the order the parser yields them |
| Events.SelectedByIndices | calendar/day-summary/day-summary.py:48-76 | each list holds one record per selected event, in strictly increasing position in the parser's sequence of events, and an event is selected exactly when it starts on the target date and has the list's kind |
| Events.EachEventInOneList | calendar/day-summary/day-summary.py:50-53 | an event on the target date lands in exactly one of the two lists; any other event in neither |
| Events.NothingSelected | calendar/day-summary/day-summary.py:48-51 | both lists are empty exactly when no event of the feed starts on the target date |
| Events.SelectedKinds | calendar/day-summary/day-summary.py:58-76 | all-day records have no time; timed records have a valid `HH:MM` time |
| Formatting.FormatEvent | calendar/day-summary/day-summary.py:79-101 | appending the lines one by one and joining them with newlines gives the rendering of the record |
| Formatting.EventLinesLayout | calendar/day-summary/day-summary.py:83-99 | 1 to 3 elements of the list of lines that is joined: the checkbox line with `HH:MM - ` for timed records only; a Description line exactly when descriptions are shown and the record has one; a Location line, last, exactly when locations are shown and the record has one; the later elements are indented by 4 spaces |
| Formatting.HiddenDescriptionNeverRendered | calendar/day-summary/day-summary.py:94-95 | with descriptions switched off, no element of the list of lines that is joined is a Description line |
| Formatting.MonthNamesPlain | calendar/day-summary/day-summary.py:108 | `%B` month names hold no space or newline, and no two are the same |
| Formatting.FormatHeader | calendar/day-summary/day-summary.py:103-111 | the header is the one-line title, a newline, a row of `=` exactly as long as the title, and a final newline |
| Formatting.HeaderFirstLine | calendar/day-summary/day-summary.py:109-111 | the text before the first newline of the header is its title |
| Formatting.TitleRoundTrip | calendar/day-summary/day-summary.py:108-109 | `Agenda for %B %d, %Y` reads back to the date it was made for |
| Formatting.HeaderRoundTrip | calendar/day-summary/day-summary.py:103-111 | the header reads back to the date it was made for, so different dates give different headers |
| Sorting.Insert | calendar/day-summary/day-summary.py:184 | inserting an element adds exactly that element |
| Sorting.SortBy | calendar/day-summary/day-summary.py:184 | `sorted` returns a rearrangement of its input |
| Sorting.SortBySorted | calendar/day-summary/day-summary.py:184 | `sorted` returns its input in non-decreasing key order |
| Sorting.SortByStable | calendar/day-summary/day-summary.py:184 | elements with equal keys keep their relative order |
| Sorting.StableSortIsUnique | calendar/day-summary/day-summary.py:184 | two sorted sequences that keep the same relative order within each key are equal, so the model's sort returns exactly what Python's stable `sorted` returns |
| Agenda.RenderAll | calendar/day-summary/day-summary.py:184-186 | one rendered string per record |
| Agenda.Fetched | calendar/day-summary/day-summary.py:158-171 | a calendar reaches `parse_events` only when it has a non-empty name and url |
| Agenda.ReportLines | calendar/day-summary/day-summary.py:156-203 | the strings printed are the header, a blank line and the calendars' blocks, so they are never empty |
| Agenda.AppendFormatted | calendar/day-summary/day-summary.py:184-186 | the loop appends each record's rendering in order |
| Agenda.AppendTimedEvents | calendar/day-summary/day-summary.py:183-186 | appends the timed events sorted by time |
| Agenda.AppendAllDayTasks | calendar/day-summary/day-summary.py:189-194 | appends a blank separator exactly when there were timed events and there are tasks, then the tasks sorted by name |
| Agenda.AppendCalendar | calendar/day-summary/day-summary.py:179-196 | appends a calendar's whole block |
| Agenda.BuildReport | calendar/day-summary/day-summary.py:151-203 | no calendars is the one fatal error the model has; otherwise the loop builds exactly the header, a blank line and each calendar's block, in configuration order |
| Agenda.BlocksInConfigOrder | calendar/day-summary/day-summary.py:157 | the blocks of two runs of calendars are the blocks of the first run followed by those of the second |
| Agenda.SkippedIffNoLines | calendar/day-summary/day-summary.py:163-176 | a calendar adds no line exactly when it has no name or url, its fetch fails or is empty, or its feed has nothing on the target date |
| Agenda.SkippedCalendarAddsNothing | calendar/day-summary/day-summary.py:163-176 | removing a skipped calendar from the configuration leaves the report unchanged |
| Agenda.BlockLayout | calendar/day-summary/day-summary.py:179-196 | a block is the name and a colon, a `-` underline as long as the name, the sorted timed events, a blank line exactly when there are both kinds, the sorted tasks, and a closing blank line |
| Agenda.TimedEventsInClockOrder | calendar/day-summary/day-summary.py:183-186 | the timed events are printed in clock order; they are exactly the calendar's timed events, each with a valid time; events at the same minute keep the order the parser yields them in |
| Agenda.AllDayTasksInNameOrder | calendar/day-summary/day-summary.py:189-194 | the tasks are printed in name order; they are exactly the calendar's all-day tasks, none with a time; tasks with the same name keep the order the parser yields them in |

## Left out

- `load_config` (lines 18-28): reading and parsing the YAML file. The model starts from the list of calendar entries, with each `name` and `url` taken as a string or absent and each `show_description` and `show_location` as a boolean (false when missing). An entry whose YAML value has another type, such as a number for `name` (which passes the check at line 163 and then makes `len(name)` at line 180 fail), is not modelled.
- Order of the events: the model takes the events in the order the parser yields them. The program does not fix that order itself, because it iterates over the parser's own collection (line 48). So events at the same minute, and tasks with the same name, print in whatever order the parser gives.
- Formatting.EventLinesLayout and Formatting.HiddenDescriptionNeverRendered: they describe the elements of the list that `format_event` joins, not the printed lines. A name, description or location keeps any newline inside it after stripping. So one element can print as several lines, and such a line can start with a label.
- `fetch_ics` (lines 30-37): the HTTP request. It is the `fetch` parameter, which gives `None` where the request fails.
- The iCalendar parser (line 41): it is the `parse` parameter. A parse error is `Unparsable`, and its printed message is not modelled.
- Errors raised while the events are read (lines 48-70): the program catches errors only from `Calendar(ics_content)` (lines 40-44). Anything raised in the loop ends the whole run, so nothing is printed at all. An example is `event.begin.date()` at line 50 on an event with no start. The model gives every event a start date and has no such aborting outcome, so it does not capture that one bad event in any calendar stops the report.
- Time-zone resolution in `main` (lines 121-135) and the conversion `event.begin.to(tz)` (line 65): each event carries its start hour and minute already converted to the report's zone.
- Argument parsing and `strptime` of `--date`, and `datetime.now` (lines 114-117, 137-145): the target date is a parameter.
- Printing (lines 164, 199-203): the report is the list of strings `main` passes to `print`, one per call; the message for an entry without name or url is not modelled.
- `sys.exit(1)` when there are no calendars (lines 152-154) is modelled as `BuildReport` returning `None`.
- `MAX_LINE_WIDTH` (line 16) is never used by the program and is not modelled.
- `%Y` is modelled as the year written without leading zeros, as the GNU C library does; other platforms pad years below 1000 to four digits.
- `%B` is modelled for the C/English locale only.
- Events.NormalizeName has no contract of its own; what it does is stated by `Events.NameNormalization`.
- image-processing/dithering/dither.py is a separate script and is not part of this model.
