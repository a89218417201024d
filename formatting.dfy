/**
 * Rendering of one record and of the report header (`format_event` and
 * `format_header` in calendar/day-summary/day-summary.py).
 */
module Formatting {
  import opened Wrappers
  import opened Text
  import opened Dates
  import opened Events

  /** U+2610 BALLOT BOX, the empty checkbox in front of every record. */
  const Checkbox: char := '\U{2610}'
  const Bullet: string := "  " + [Checkbox] + " "
  const DescriptionLabel: string := "    Description: "
  const LocationLabel: string := "    Location: "

  // ---------------------------------------------------------------------
  // format_event

  function FirstLine(item: Item): string {
    if item.time.Some? then Bullet + item.time.value + " - " + item.name else Bullet + item.name
  }

  predicate ShowsDescription(item: Item, showDescription: bool) {
    showDescription && Truthy(item.description)
  }

  predicate ShowsLocation(item: Item, showLocation: bool) {
    showLocation && Truthy(item.location)
  }

  /** The lines `format_event` collects before joining them with newlines. */
  function EventLines(item: Item, showDescription: bool, showLocation: bool): seq<string> {
    [FirstLine(item)]
    + (if ShowsDescription(item, showDescription) then [DescriptionLabel + item.description.value] else [])
    + (if ShowsLocation(item, showLocation) then [LocationLabel + item.location.value] else [])
  }

  /** The single string `format_event` returns: its lines joined by newlines. */
  function EventText(item: Item, showDescription: bool, showLocation: bool): string {
    Join(EventLines(item, showDescription, showLocation), "\n")
  }

  /** `format_event`: builds the list of lines by appending, then joins it. */
  method FormatEvent(item: Item, showDescription: bool, showLocation: bool) returns (text: string)
    ensures text == EventText(item, showDescription, showLocation)
  {
    var lines: seq<string> := [];
    var firstLine: string;
    if item.time.Some? {
      firstLine := Bullet + item.time.value + " - " + item.name;
    } else {
      firstLine := Bullet + item.name;
    }
    lines := lines + [firstLine];
    if showDescription && Truthy(item.description) {
      lines := lines + [DescriptionLabel + item.description.value];
    }
    if showLocation && Truthy(item.location) {
      lines := lines + [LocationLabel + item.location.value];
    }
    assert lines == EventLines(item, showDescription, showLocation);
    text := Join(lines, "\n");
  }

  /** Shape of the list of lines `format_event` joins: a checkbox line at a
      2-space margin, then a Description line exactly when descriptions are
      shown and the record has one, then a Location line exactly when
      locations are shown and the record has one, both at a 4-space indent;
      so 1 to 3 elements. A field that holds a newline still makes one
      element, which prints as several lines. */
  lemma EventLinesLayout(item: Item, showDescription: bool, showLocation: bool)
    ensures var lines := EventLines(item, showDescription, showLocation);
            var d := ShowsDescription(item, showDescription);
            var l := ShowsLocation(item, showLocation);
            && 1 <= |lines| <= 3
            && |lines| == 1 + (if d then 1 else 0) + (if l then 1 else 0)
            && (item.time.Some? ==> lines[0] == Bullet + item.time.value + " - " + item.name)
            && (item.time.None? ==> lines[0] == Bullet + item.name)
            && (d ==> lines[1] == DescriptionLabel + item.description.value)
            && (l ==> lines[|lines| - 1] == LocationLabel + item.location.value)
            && (forall k :: 1 <= k < |lines| ==> HasPrefix(lines[k], "    "))
            && ((exists k :: 0 <= k < |lines| && HasPrefix(lines[k], DescriptionLabel)) <==> d)
            && ((exists k :: 0 <= k < |lines| && HasPrefix(lines[k], LocationLabel)) <==> l)
  {
    var lines := EventLines(item, showDescription, showLocation);
    var d := ShowsDescription(item, showDescription);
    var l := ShowsLocation(item, showLocation);
    assert lines[0][2] == Checkbox;
    forall k | 1 <= k < |lines|
      ensures HasPrefix(lines[k], "    ")
      ensures HasPrefix(lines[k], DescriptionLabel) <==> d && k == 1
      ensures HasPrefix(lines[k], LocationLabel) <==> l && k == |lines| - 1
    {
      if d && k == 1 {
        assert lines[k][..|DescriptionLabel|] == DescriptionLabel;
        assert lines[k][4] == 'D';
      } else {
        assert lines[k][..|LocationLabel|] == LocationLabel;
        assert lines[k][4] == 'L';
      }
    }
  }

  /** With descriptions switched off, no element of the joined list is a
      Description line. */
  lemma HiddenDescriptionNeverRendered(item: Item, showLocation: bool)
    ensures forall line :: line in EventLines(item, false, showLocation) ==> !HasPrefix(line, DescriptionLabel)
  {
    EventLinesLayout(item, false, showLocation);
  }

  // ---------------------------------------------------------------------
  // format_header

  const TitlePrefix: string := "Agenda for "

  /** `"Agenda for " + date.strftime('%B %d, %Y')`. */
  function HeaderTitle(date: CalendarDate): string {
    TitlePrefix + MonthNames[date.month - 1] + " " + TwoDigits(date.day) + ", " + Decimal(date.year)
  }

  lemma MonthNamesPlain()
    ensures forall i :: 0 <= i < |MonthNames| ==> ' ' !in MonthNames[i] && '\n' !in MonthNames[i]
    ensures forall i, j :: 0 <= i < j < |MonthNames| ==> MonthNames[i] != MonthNames[j]
  {
  }

  /** `format_header`: the title, a newline, a row of '=' as long as the
      title, and a final newline; the title is a single line. */
  function FormatHeader(date: CalendarDate): (h: string)
    ensures var t := HeaderTitle(date);
            && '\n' !in t
            && |h| == 2 * |t| + 2
            && h[..|t|] == t
            && h[|t|] == '\n'
            && (forall k :: |t| < k <= 2 * |t| ==> h[k] == '=')
            && h[|h| - 1] == '\n'
  {
    var t := HeaderTitle(date);
    MonthNamesPlain();
    assert '\n' !in t by {
      var name := MonthNames[date.month - 1];
      assert t == TitlePrefix + name + " " + TwoDigits(date.day) + ", " + Decimal(date.year);
      assert forall c :: c in Decimal(date.year) ==> IsDigit(c);
    }
    t + "\n" + Repeat('=', |t|) + "\n"
  }

  // ---------------------------------------------------------------------
  // Reading a header back

  function MonthFrom(name: string, i: nat): Option<int>
    requires i <= |MonthNames|
    decreases |MonthNames| - i
  {
    if i == |MonthNames| then None
    else if MonthNames[i] == name then Some(i + 1)
    else MonthFrom(name, i + 1)
  }

  /** The date a header title names, if it is one. */
  function ParseTitle(t: string): Option<CalendarDate> {
    if !HasPrefix(t, TitlePrefix) then None
    else
      var rest := t[|TitlePrefix|..];
      var name := TakeUntil(rest, ' ');
      var month := MonthFrom(name, 0);
      if month.None? then None else ParseDayYear(rest[|name|..], month.value)
  }

  /** Reads `" DD, YYYY"` following the month name. */
  function ParseDayYear(tail: string, month: int): Option<CalendarDate> {
    if |tail| < 6 || tail[0] != ' ' || !IsDigit(tail[1]) || !IsDigit(tail[2])
       || tail[3] != ',' || tail[4] != ' ' || !AllDigits(tail[5..])
    then None
    else
      var date := Date(DecimalValue(tail[5..]), month, 10 * DigitValue(tail[1]) + DigitValue(tail[2]));
      if date.Valid() then Some(date) else None
  }

  /** The date named by the first line of a header. */
  function ParseHeader(h: string): Option<CalendarDate> {
    ParseTitle(TakeUntil(h, '\n'))
  }

  lemma TakeUntilStops(a: string, c: char, b: string)
    requires c !in a
    ensures TakeUntil(a + [c] + b, c) == a
  {
    var s := a + [c] + b;
    assert s[..|a|] == a && s[|a|] == c;
  }

  /** A title of the shape `format_header` writes reads back to the month
      number of its name, its two-digit day and its decimal year. */
  lemma TitleParses(name: string, dd: string, yyyy: string)
    requires ' ' !in name
    requires |dd| == 2 && IsDigit(dd[0]) && IsDigit(dd[1])
    requires yyyy != [] && AllDigits(yyyy)
    ensures var month := MonthFrom(name, 0);
            ParseTitle(TitlePrefix + name + " " + dd + ", " + yyyy)
            == if month.None? then None else ParseDayYear(" " + dd + ", " + yyyy, month.value)
  {
    var tail := " " + dd + ", " + yyyy;
    var t := TitlePrefix + name + tail;
    assert TitlePrefix + name + " " + dd + ", " + yyyy == t;
    assert t[..|TitlePrefix|] == TitlePrefix;
    var rest := t[|TitlePrefix|..];
    assert rest == name + [' '] + (dd + ", " + yyyy);
    TakeUntilStops(name, ' ', dd + ", " + yyyy);
    assert rest[|name|..] == tail;
  }

  /** `" DD, YYYY"` reads back to its day and year. */
  lemma DayYearParses(dd: string, yyyy: string, month: int)
    requires |dd| == 2 && IsDigit(dd[0]) && IsDigit(dd[1])
    requires yyyy != [] && AllDigits(yyyy)
    ensures var date := Date(DecimalValue(yyyy), month, 10 * DigitValue(dd[0]) + DigitValue(dd[1]));
            ParseDayYear(" " + dd + ", " + yyyy, month) == if date.Valid() then Some(date) else None
  {
    var tail := " " + dd + ", " + yyyy;
    assert tail[1] == dd[0] && tail[2] == dd[1] && tail[3] == ',' && tail[4] == ' ' && tail[5..] == yyyy;
  }

  lemma {:induction false} MonthFromFinds(m: nat, i: nat)
    requires i <= m < |MonthNames|
    ensures MonthFrom(MonthNames[m], i) == Some(m + 1)
    decreases m - i
  {
    MonthNamesPlain();
    if i < m {
      MonthFromFinds(m, i + 1);
    }
  }

  /** The first line of a header is its title. */
  lemma HeaderFirstLine(date: CalendarDate)
    ensures TakeUntil(FormatHeader(date), '\n') == HeaderTitle(date)
  {
    var t := HeaderTitle(date);
    var h := FormatHeader(date);
    assert h == t + ['\n'] + h[|t| + 1..];
    TakeUntilStops(t, '\n', h[|t| + 1..]);
  }

  /** A title reads back to the date it was made for. */
  lemma TitleRoundTrip(date: CalendarDate)
    ensures ParseTitle(HeaderTitle(date)) == Some(date)
  {
    var name := MonthNames[date.month - 1];
    var dd, yyyy := TwoDigits(date.day), Decimal(date.year);
    assert ' ' !in name by { MonthNamesPlain(); }
    MonthFromFinds(date.month - 1, 0);
    TitleParses(name, dd, yyyy);
    assert ParseTitle(HeaderTitle(date)) == ParseDayYear(" " + dd + ", " + yyyy, date.month);
    DayYearParses(dd, yyyy, date.month);
    DecimalRoundTrip(date.year);
    assert Date(DecimalValue(yyyy), date.month, 10 * DigitValue(dd[0]) + DigitValue(dd[1])) == date;
  }

  /** The header names the date it was made for. */
  lemma HeaderRoundTrip(date: CalendarDate)
    ensures ParseHeader(FormatHeader(date)) == Some(date)
  {
    HeaderFirstLine(date);
    TitleRoundTrip(date);
  }
}
