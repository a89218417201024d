/**
 * Assembly of the report (the calendar loop of `main` in
 * calendar/day-summary/day-summary.py).
 *
 * Fetching a feed and parsing its text are collaborators outside the model:
 * `fetch` gives a feed's text or `None`, `parse` gives its events or
 * `Unparsable`. Printing is left out: the report is the list of strings
 * `main` passes to `print`, one per call (a string may span several lines).
 */
module Agenda {
  import opened Wrappers
  import opened Text
  import opened Sorting
  import opened Dates
  import opened Events
  import opened Formatting

  /** One entry of the configuration's calendar list; `show_description`
      and `show_location` default to false when absent. */
  datatype CalendarConfig = CalendarConfig(
    name: Option<string>,
    url: Option<string>,
    showDescription: bool,
    showLocation: bool)

  /** Sort key of timed events (they always carry a time). */
  function TimeKey(item: Item): string {
    item.time.GetOr("")
  }

  /** Sort key of all-day tasks. */
  function NameKey(item: Item): string {
    item.name
  }

  /** The strings appended for a list of records, one per record. */
  function RenderAll(items: seq<Item>, showDescription: bool, showLocation: bool): (lines: seq<string>)
    ensures |lines| == |items|
  {
    seq(|items|, k requires 0 <= k < |items| => EventText(items[k], showDescription, showLocation))
  }

  /** The two lists `main` gets from `parse_events` for a calendar, or
      `None` when it passes over the calendar before parsing: no name, no
      url, or a fetch that failed or gave empty text. */
  function Fetched(cal: CalendarConfig, target: CalendarDate, fetch: string -> Option<string>, parse: string -> Feed): (lists: Option<(seq<Item>, seq<Item>)>)
    ensures lists.Some? ==> Truthy(cal.name) && Truthy(cal.url)
  {
    if !Truthy(cal.name) || !Truthy(cal.url) then None
    else
      var content := fetch(cal.url.value);
      if !Truthy(content) then None else Some(SelectFeed(parse(content.value), target))
  }

  /** The reasons `main` passes over a calendar: no name or url, a failed
      or empty fetch, or nothing on the target date (a feed that does not
      parse has nothing on any date). */
  predicate Skipped(cal: CalendarConfig, target: CalendarDate, fetch: string -> Option<string>, parse: string -> Feed) {
    || !Truthy(cal.name)
    || !Truthy(cal.url)
    || !Truthy(fetch(cal.url.value))
    || (var feed := parse(fetch(cal.url.value).value);
        feed.Unparsable? || forall e :: e in feed.events ==> e.beginDate != target)
  }

  /** The lines of a calendar that has something to show. */
  function BlockLines(name: string, timed: seq<Item>, allDay: seq<Item>, showDescription: bool, showLocation: bool): seq<string> {
    [name + ":", Repeat('-', |name|)]
    + RenderAll(SortBy(timed, TimeKey), showDescription, showLocation)
    + (if timed != [] && allDay != [] then [""] else [])
    + RenderAll(SortBy(allDay, NameKey), showDescription, showLocation)
    + [""]
  }

  /** The lines one calendar adds to the report. */
  function CalendarBlock(cal: CalendarConfig, target: CalendarDate, fetch: string -> Option<string>, parse: string -> Feed): seq<string> {
    var lists := Fetched(cal, target, fetch, parse);
    if lists.None? || (lists.value.0 == [] && lists.value.1 == []) then []
    else BlockLines(cal.name.value, lists.value.0, lists.value.1, cal.showDescription, cal.showLocation)
  }

  /** The blocks of the calendars, in configuration order. */
  function Blocks(cals: seq<CalendarConfig>, target: CalendarDate, fetch: string -> Option<string>, parse: string -> Feed): seq<string> {
    if cals == [] then []
    else Blocks(cals[..|cals| - 1], target, fetch, parse) + CalendarBlock(cals[|cals| - 1], target, fetch, parse)
  }

  /** `output_lines` once every calendar is processed. It always starts
      with the header and a blank line, so it is never empty and the
      "No events or tasks found" branch of `main` cannot be reached. */
  function ReportLines(target: CalendarDate, cals: seq<CalendarConfig>, fetch: string -> Option<string>, parse: string -> Feed): (lines: seq<string>)
    ensures |lines| >= 2 && lines[0] == FormatHeader(target) && lines[1] == ""
    ensures lines[2..] == Blocks(cals, target, fetch, parse)
  {
    [FormatHeader(target), ""] + Blocks(cals, target, fetch, parse)
  }

  /** Appends the rendering of each record, in order. */
  method AppendFormatted(lines: seq<string>, items: seq<Item>, showDescription: bool, showLocation: bool)
    returns (out: seq<string>)
    ensures out == lines + RenderAll(items, showDescription, showLocation)
  {
    out := lines;
    for j := 0 to |items|
      invariant out == lines + RenderAll(items[..j], showDescription, showLocation)
    {
      var formatted := FormatEvent(items[j], showDescription, showLocation);
      assert items[..j + 1][..j] == items[..j];
      out := out + [formatted];
    }
    assert items[..|items|] == items;
  }

  /** The body of the calendar loop of `main` for a calendar with
      something to show: appends its name, underline, sorted timed events,
      separator, sorted all-day tasks and closing blank line. */
  method AppendCalendar(lines: seq<string>, name: string, timedEvents: seq<Item>, allDayTasks: seq<Item>, showDescription: bool, showLocation: bool)
    returns (out: seq<string>)
    ensures out == lines + BlockLines(name, timedEvents, allDayTasks, showDescription, showLocation)
  {
    ghost var head := [name + ":", Repeat('-', |name|)];
    ghost var timedLines := RenderAll(SortBy(timedEvents, TimeKey), showDescription, showLocation);
    ghost var sepLines: seq<string> := if timedEvents != [] && allDayTasks != [] then [""] else [];
    ghost var taskLines := RenderAll(SortBy(allDayTasks, NameKey), showDescription, showLocation);
    out := lines + [name + ":"];
    out := out + [Repeat('-', |name|)];
    assert out == lines + head;
    out := AppendTimedEvents(out, timedEvents, showDescription, showLocation);
    out := AppendAllDayTasks(out, timedEvents != [], allDayTasks, showDescription, showLocation);
    out := out + [""];
    AppendAssociates(lines, head, timedLines, sepLines, taskLines, [""]);
  }

  /** "Display timed events": the timed events sorted by time. */
  method AppendTimedEvents(lines: seq<string>, timedEvents: seq<Item>, showDescription: bool, showLocation: bool)
    returns (out: seq<string>)
    ensures out == lines + RenderAll(SortBy(timedEvents, TimeKey), showDescription, showLocation)
  {
    out := lines;
    if timedEvents != [] {
      out := AppendFormatted(out, SortBy(timedEvents, TimeKey), showDescription, showLocation);
    }
  }

  /** "Display all-day tasks": a blank separator when there were timed
      events, then the tasks sorted by name. */
  method AppendAllDayTasks(lines: seq<string>, hadTimed: bool, allDayTasks: seq<Item>, showDescription: bool, showLocation: bool)
    returns (out: seq<string>)
    ensures out == lines + (if hadTimed && allDayTasks != [] then [""] else [])
                   + RenderAll(SortBy(allDayTasks, NameKey), showDescription, showLocation)
  {
    out := lines;
    if allDayTasks != [] {
      if hadTimed {
        out := out + [""];
      }
      out := AppendFormatted(out, SortBy(allDayTasks, NameKey), showDescription, showLocation);
    }
  }

  lemma AppendAssociates(lines: seq<string>, head: seq<string>, a: seq<string>, sep: seq<string>, b: seq<string>, tail: seq<string>)
    ensures lines + head + a + sep + b + tail == lines + (head + a + sep + b + tail)
  {
  }

  /** The calendar loop of `main`: no calendars is a fatal error (`None`);
      otherwise the report is the header, a blank line and each calendar's
      block in configuration order. */
  method BuildReport(target: CalendarDate, calendars: seq<CalendarConfig>, fetch: string -> Option<string>, parse: string -> Feed)
    returns (report: Option<seq<string>>)
    ensures calendars == [] <==> report.None?
    ensures report.Some? ==> report.value == ReportLines(target, calendars, fetch, parse)
  {
    if calendars == [] {
      return None;
    }
    var header := FormatHeader(target);
    var outputLines := [header, ""];
    for i := 0 to |calendars|
      invariant outputLines == [header, ""] + Blocks(calendars[..i], target, fetch, parse)
    {
      var cal := calendars[i];
      BlocksSnoc(calendars, i, target, fetch, parse);
      ghost var done := Blocks(calendars[..i], target, fetch, parse);
      AppendNothing(done);
      if !Truthy(cal.name) || !Truthy(cal.url) {
        assert CalendarBlock(cal, target, fetch, parse) == [];
        continue;
      }
      var icsContent := fetch(cal.url.value);
      if !Truthy(icsContent) {
        assert CalendarBlock(cal, target, fetch, parse) == [];
        continue;
      }
      var timedEvents, allDayTasks := ParseEvents(parse(icsContent.value), target);
      assert Fetched(cal, target, fetch, parse) == Some((timedEvents, allDayTasks));
      if timedEvents == [] && allDayTasks == [] {
        assert CalendarBlock(cal, target, fetch, parse) == [];
        continue;
      }
      assert CalendarBlock(cal, target, fetch, parse)
          == BlockLines(cal.name.value, timedEvents, allDayTasks, cal.showDescription, cal.showLocation);
      outputLines := AppendCalendar(outputLines, cal.name.value, timedEvents, allDayTasks, cal.showDescription, cal.showLocation);
      AppendRegroups([header, ""], done, CalendarBlock(cal, target, fetch, parse));
    }
    assert calendars[..|calendars|] == calendars;
    report := Some(outputLines);
  }

  lemma AppendRegroups(a: seq<string>, b: seq<string>, c: seq<string>)
    ensures a + b + c == a + (b + c)
  {
  }

  lemma BlocksSnoc(cals: seq<CalendarConfig>, i: nat, target: CalendarDate, fetch: string -> Option<string>, parse: string -> Feed)
    requires i < |cals|
    ensures Blocks(cals[..i + 1], target, fetch, parse) == Blocks(cals[..i], target, fetch, parse) + CalendarBlock(cals[i], target, fetch, parse)
  {
    assert cals[..i + 1][..i] == cals[..i];
  }

  // ---------------------------------------------------------------------
  // Properties of the report

  /** Calendars contribute their blocks in configuration order. */
  lemma {:induction false} BlocksInConfigOrder(a: seq<CalendarConfig>, b: seq<CalendarConfig>, target: CalendarDate, fetch: string -> Option<string>, parse: string -> Feed)
    ensures Blocks(a + b, target, fetch, parse) == Blocks(a, target, fetch, parse) + Blocks(b, target, fetch, parse)
  {
    if b == [] {
      assert a + b == a;
    } else {
      var init := b[..|b| - 1];
      assert (a + b)[..|a + b| - 1] == a + init;
      BlocksInConfigOrder(a, init, target, fetch, parse);
    }
  }

  /** A calendar adds no line at all exactly when it is skipped. */
  lemma SkippedIffNoLines(cal: CalendarConfig, target: CalendarDate, fetch: string -> Option<string>, parse: string -> Feed)
    ensures CalendarBlock(cal, target, fetch, parse) == [] <==> Skipped(cal, target, fetch, parse)
  {
    if Truthy(cal.name) && Truthy(cal.url) && Truthy(fetch(cal.url.value)) {
      var feed := parse(fetch(cal.url.value).value);
      if feed.Parsed? {
        NothingSelected(feed.events, target);
      }
    }
  }

  /** A skipped calendar can be dropped from the configuration without
      changing the report. */
  lemma SkippedCalendarAddsNothing(a: seq<CalendarConfig>, cal: CalendarConfig, b: seq<CalendarConfig>, target: CalendarDate, fetch: string -> Option<string>, parse: string -> Feed)
    requires Skipped(cal, target, fetch, parse)
    ensures ReportLines(target, a + [cal] + b, fetch, parse) == ReportLines(target, a + b, fetch, parse)
  {
    SkippedIffNoLines(cal, target, fetch, parse);
    DropEmptyBlock(a, cal, b, target, fetch, parse);
  }

  lemma DropEmptyBlock(a: seq<CalendarConfig>, cal: CalendarConfig, b: seq<CalendarConfig>, target: CalendarDate, fetch: string -> Option<string>, parse: string -> Feed)
    requires CalendarBlock(cal, target, fetch, parse) == []
    ensures Blocks(a + [cal] + b, target, fetch, parse) == Blocks(a + b, target, fetch, parse)
  {
    var ac := a + [cal];
    assert ac[..|ac| - 1] == a && ac[|ac| - 1] == cal;
    var before := Blocks(a, target, fetch, parse);
    assert Blocks(ac, target, fetch, parse) == before + [];
    AppendNothing(before);
    BlocksInConfigOrder(ac, b, target, fetch, parse);
    BlocksInConfigOrder(a, b, target, fetch, parse);
  }

  /** Layout of a calendar's lines: the name and a colon, a '-' underline
      as long as the name, the timed events, one blank line exactly when
      there are both timed events and all-day tasks, the all-day tasks,
      and a closing blank line. */
  lemma BlockLayout(name: string, timed: seq<Item>, allDay: seq<Item>, showDescription: bool, showLocation: bool)
    ensures var block := BlockLines(name, timed, allDay, showDescription, showLocation);
            var sep := if timed != [] && allDay != [] then 1 else 0;
            && |block| == 3 + |timed| + sep + |allDay|
            && block[0] == name + ":"
            && |block[1]| == |name| && (forall k :: 0 <= k < |name| ==> block[1][k] == '-')
            && block[2..2 + |timed|] == RenderAll(SortBy(timed, TimeKey), showDescription, showLocation)
            && (sep == 1 ==> block[2 + |timed|] == "")
            && block[2 + |timed| + sep..|block| - 1] == RenderAll(SortBy(allDay, NameKey), showDescription, showLocation)
            && block[|block| - 1] == ""
  {
    var timedLines := RenderAll(SortBy(timed, TimeKey), showDescription, showLocation);
    var taskLines := RenderAll(SortBy(allDay, NameKey), showDescription, showLocation);
    var sepLines: seq<string> := if timed != [] && allDay != [] then [""] else [];
    ConcatSlices([name + ":", Repeat('-', |name|)], timedLines, sepLines, taskLines, [""]);
  }

  lemma ConcatSlices(head: seq<string>, a: seq<string>, sep: seq<string>, b: seq<string>, tail: seq<string>)
    ensures var all := head + a + sep + b + tail;
            && |all| == |head| + |a| + |sep| + |b| + |tail|
            && all[..|head|] == head
            && all[|head|..|head| + |a|] == a
            && all[|head| + |a|..|head| + |a| + |sep|] == sep
            && all[|head| + |a| + |sep|..|all| - |tail|] == b
            && all[|all| - |tail|..] == tail
  {
  }

  /** The timed events of a block come in clock order, are exactly the
      calendar's timed events, and events that start at the same minute
      keep the order the parser yields them in. */
  lemma TimedEventsInClockOrder(events: seq<RawEvent>, target: CalendarDate)
    ensures var timed := Selected(events, target, false);
            var sorted := SortBy(timed, TimeKey);
            && multiset(sorted) == multiset(timed)
            && (forall i :: 0 <= i < |sorted| ==> sorted[i].time.Some? && ValidTime(sorted[i].time.value))
            && (forall i, j :: 0 <= i < j < |sorted| ==>
                  ClockMinutes(sorted[i].time.value) <= ClockMinutes(sorted[j].time.value))
            && (forall t :: WithKey(sorted, TimeKey, t) == WithKey(timed, TimeKey, t))
  {
    var timed := Selected(events, target, false);
    var sorted := SortBy(timed, TimeKey);
    SelectedKinds(events, target, false);
    SortBySorted(timed, TimeKey);
    forall i | 0 <= i < |sorted|
      ensures sorted[i].time.Some? && ValidTime(sorted[i].time.value)
    {
      assert sorted[i] in multiset(timed);
    }
    forall i, j | 0 <= i < j < |sorted|
      ensures ClockMinutes(sorted[i].time.value) <= ClockMinutes(sorted[j].time.value)
    {
      TimeOrderIsClockOrder(sorted[i].time.value, sorted[j].time.value);
    }
    forall t ensures WithKey(sorted, TimeKey, t) == WithKey(timed, TimeKey, t) {
      SortByStable(timed, TimeKey, t);
    }
  }

  /** The all-day tasks of a block come in name order, are exactly the
      calendar's all-day tasks, and tasks with the same name keep the
      order the parser yields them in. */
  lemma AllDayTasksInNameOrder(events: seq<RawEvent>, target: CalendarDate)
    ensures var tasks := Selected(events, target, true);
            var sorted := SortBy(tasks, NameKey);
            && multiset(sorted) == multiset(tasks)
            && (forall i, j :: 0 <= i < j < |sorted| ==> LexLe(sorted[i].name, sorted[j].name))
            && (forall i :: 0 <= i < |sorted| ==> sorted[i].time.None?)
            && (forall n :: WithKey(sorted, NameKey, n) == WithKey(tasks, NameKey, n))
  {
    var tasks := Selected(events, target, true);
    var sorted := SortBy(tasks, NameKey);
    SelectedKinds(events, target, true);
    SortBySorted(tasks, NameKey);
    forall i | 0 <= i < |sorted|
      ensures sorted[i].time.None?
    {
      assert sorted[i] in multiset(tasks);
    }
    forall n ensures WithKey(sorted, NameKey, n) == WithKey(tasks, NameKey, n) {
      SortByStable(tasks, NameKey, n);
    }
  }
}
