/**
 * Selection and normalisation of one feed's events for the target date
 * (`parse_events` in calendar/day-summary/day-summary.py).
 *
 * The iCalendar parser and the time-zone database are not modelled: a feed
 * arrives already parsed into `RawEvent`s, or as `Unparsable`, and each
 * event carries its start hour and minute already converted to the
 * report's zone.
 */
module Events {
  import opened Wrappers
  import opened Text
  import opened Dates

  type Hour = h: int | 0 <= h < 24
  type Minute = m: int | 0 <= m < 60

  /** One event of a parsed feed. `beginDate` is the start date in the
      event's own zone (no conversion); `hour` and `minute` are the start
      converted to the report's zone. */
  datatype RawEvent = RawEvent(
    allDay: bool,
    beginDate: CalendarDate,
    hour: Hour,
    minute: Minute,
    name: Option<string>,
    description: Option<string>,
    location: Option<string>)

  /** What parsing a feed's text gives: its events, in the order the
      parser yields them, or a parse error. */
  datatype Feed = Parsed(events: seq<RawEvent>) | Unparsable

  /** A normalised record. `time` is present exactly for timed events,
      as the record's "time" key is. */
  datatype Item = Item(
    time: Option<string>,
    name: string,
    description: Option<string>,
    location: Option<string>)

  const Untitled := "No Title"

  /** Python truthiness of an optional string: present and not empty. */
  predicate Truthy(o: Option<string>) {
    o.Some? && o.value != ""
  }

  /** `event.name.strip() if event.name else "No Title"`. */
  function NormalizeName(name: Option<string>): string {
    if Truthy(name) then Strip(name.value) else Untitled
  }

  /** `x.strip() if x and x.strip() else None`, for description and location:
      absent exactly when missing or blank, otherwise the stripped text. */
  function NormalizeOptional(text: Option<string>): (r: Option<string>)
    ensures r.None? <==> text.None? || AllSpace(text.value)
    ensures r.Some? ==> r.value == Strip(text.value) && r.value != ""
  {
    if Truthy(text) && Strip(text.value) != "" then Some(Strip(text.value)) else None
  }

  /** A missing or empty name becomes "No Title"; any other name is
      stripped, so a name made only of whitespace becomes "". */
  lemma NameNormalization(name: Option<string>)
    ensures !Truthy(name) ==> NormalizeName(name) == Untitled
    ensures Truthy(name) && AllSpace(name.value) ==> NormalizeName(name) == ""
    ensures Truthy(name) && !AllSpace(name.value) ==>
              var r := NormalizeName(name);
              r != "" && !IsSpace(r[0]) && !IsSpace(r[|r| - 1]) && r == Strip(name.value)
  {
  }

  lemma WhitespaceNameIsNotUntitled()
    ensures NormalizeName(Some("   ")) == ""
  {
    assert AllSpace("   ");
  }

  // ---------------------------------------------------------------------
  // strftime('%H:%M')

  /** Shape of a zero-padded 24-hour `HH:MM`. */
  predicate ValidTime(t: string) {
    |t| == 5 && IsDigit(t[0]) && IsDigit(t[1]) && t[2] == ':' && IsDigit(t[3]) && IsDigit(t[4])
    && 10 * DigitValue(t[0]) + DigitValue(t[1]) < 24
    && 10 * DigitValue(t[3]) + DigitValue(t[4]) < 60
  }

  /** Minutes since midnight that a valid `HH:MM` stands for. */
  function ClockMinutes(t: string): int
    requires ValidTime(t)
  {
    60 * (10 * DigitValue(t[0]) + DigitValue(t[1])) + 10 * DigitValue(t[3]) + DigitValue(t[4])
  }

  /** `strftime('%H:%M')`: five characters that read back as the same hour and minute. */
  function TimeString(h: Hour, m: Minute): (t: string)
    ensures ValidTime(t)
    ensures ClockMinutes(t) == 60 * h + m
  {
    var hh, mm := TwoDigits(h), TwoDigits(m);
    var t := hh + ":" + mm;
    assert t[0] == hh[0] && t[1] == hh[1] && t[3] == mm[0] && t[4] == mm[1];
    t
  }

  /** On `HH:MM` strings, Python's string order is the order of the clock,
      which is what sorting timed events by their "time" string relies on. */
  lemma TimeOrderIsClockOrder(s: string, t: string)
    requires ValidTime(s) && ValidTime(t)
    ensures LexLe(s, t) <==> ClockMinutes(s) <= ClockMinutes(t)
  {
    LexLeStep(s, t);
    LexLeStep(s[1..], t[1..]);
    LexLeStep(s[2..], t[2..]);
    LexLeStep(s[3..], t[3..]);
    LexLeStep(s[4..], t[4..]);
    assert s[5..] == [] && t[5..] == [];
    DigitCharOrder(s[0], t[0]);
    DigitCharOrder(s[1], t[1]);
    DigitCharOrder(s[3], t[3]);
    DigitCharOrder(s[4], t[4]);
  }

  // ---------------------------------------------------------------------
  // Selection

  /** Event `e` is kept for `target` and belongs to the all-day list exactly when `allDay`. */
  predicate Matches(e: RawEvent, target: CalendarDate, allDay: bool) {
    e.beginDate == target && e.allDay == allDay
  }

  /** The record built for an event that is kept. */
  function Normalize(e: RawEvent): Item {
    Item(
      if e.allDay then None else Some(TimeString(e.hour, e.minute)),
      NormalizeName(e.name),
      NormalizeOptional(e.description),
      NormalizeOptional(e.location))
  }

  /** The records `parse_events` collects in one of its two lists. */
  function Selected(events: seq<RawEvent>, target: CalendarDate, allDay: bool): seq<Item> {
    if events == [] then []
    else
      var e := events[|events| - 1];
      Selected(events[..|events| - 1], target, allDay) + (if Matches(e, target, allDay) then [Normalize(e)] else [])
  }

  /** Positions in the feed of the events that land in one list. */
  function MatchIndices(events: seq<RawEvent>, target: CalendarDate, allDay: bool): seq<nat> {
    if events == [] then []
    else
      var last := |events| - 1;
      MatchIndices(events[..last], target, allDay) + (if Matches(events[last], target, allDay) then [last] else [])
  }

  /** The pair of lists `parse_events` returns: timed events, then all-day tasks. */
  function SelectFeed(feed: Feed, target: CalendarDate): (seq<Item>, seq<Item>) {
    match feed
    case Unparsable => ([], [])
    case Parsed(events) => (Selected(events, target, false), Selected(events, target, true))
  }

  /** `parse_events`: one pass over the feed, appending each event that
      starts on the target date to the timed list or to the all-day list.
      A feed that does not parse gives two empty lists. */
  method ParseEvents(feed: Feed, target: CalendarDate) returns (timedEvents: seq<Item>, allDayTasks: seq<Item>)
    ensures feed.Unparsable? ==> timedEvents == [] && allDayTasks == []
    ensures feed.Parsed? ==>
              timedEvents == Selected(feed.events, target, false)
              && allDayTasks == Selected(feed.events, target, true)
  {
    timedEvents, allDayTasks := [], [];
    if feed.Unparsable? {
      return;
    }
    var events := feed.events;
    var i := 0;
    while i < |events|
      invariant 0 <= i <= |events|
      invariant timedEvents == Selected(events[..i], target, false)
      invariant allDayTasks == Selected(events[..i], target, true)
    {
      var event := events[i];
      assert events[..i + 1][..i] == events[..i];
      if event.beginDate == target {
        var name := NormalizeName(event.name);
        var description := NormalizeOptional(event.description);
        var location := NormalizeOptional(event.location);
        if event.allDay {
          allDayTasks := allDayTasks + [Item(None, name, description, location)];
        } else {
          var time := TimeString(event.hour, event.minute);
          timedEvents := timedEvents + [Item(Some(time), name, description, location)];
        }
      }
      i := i + 1;
    }
    assert events[..i] == events;
  }

  // ---------------------------------------------------------------------
  // Properties of the selection

  /** Each list holds, in the order the parser yields the events, the
      records of exactly the events that start on the target date and have
      the list's kind. */
  lemma {:induction false} SelectedByIndices(events: seq<RawEvent>, target: CalendarDate, allDay: bool)
    ensures var ix, sel := MatchIndices(events, target, allDay), Selected(events, target, allDay);
            && |ix| == |sel|
            && (forall k :: 0 <= k < |ix| ==> ix[k] < |events| && sel[k] == Normalize(events[ix[k]]))
            && (forall k, l :: 0 <= k < l < |ix| ==> ix[k] < ix[l])
            && (forall i :: 0 <= i < |events| ==> (i in ix <==> Matches(events[i], target, allDay)))
  {
    if events != [] {
      var last := |events| - 1;
      var init := events[..last];
      SelectedByIndices(init, target, allDay);
      var ix0 := MatchIndices(init, target, allDay);
      var ix := MatchIndices(events, target, allDay);
      assert forall k :: 0 <= k < |ix0| ==> ix[k] == ix0[k] && events[ix0[k]] == init[ix0[k]];
      forall i | 0 <= i < |events|
        ensures i in ix <==> Matches(events[i], target, allDay)
      {
        if i < last {
          assert events[i] == init[i];
          assert i != last;
        }
      }
    }
  }

  /** Every event on the target date lands in exactly one of the two lists;
      every other event in neither. */
  lemma EachEventInOneList(events: seq<RawEvent>, target: CalendarDate, i: nat)
    requires i < |events|
    ensures events[i].beginDate == target ==>
              (i in MatchIndices(events, target, true)) != (i in MatchIndices(events, target, false))
    ensures events[i].beginDate != target ==>
              i !in MatchIndices(events, target, true) && i !in MatchIndices(events, target, false)
  {
    SelectedByIndices(events, target, true);
    SelectedByIndices(events, target, false);
  }

  /** Both lists are empty exactly when no event of the feed starts on
      the target date. */
  lemma {:induction false} NothingSelected(events: seq<RawEvent>, target: CalendarDate)
    ensures Selected(events, target, false) == [] && Selected(events, target, true) == []
            <==> forall e :: e in events ==> e.beginDate != target
  {
    if events != [] {
      var init := events[..|events| - 1];
      NothingSelected(init, target);
      assert events == init + [events[|events| - 1]];
    }
  }

  /** Timed records carry a valid `HH:MM` time; all-day records carry none. */
  lemma {:induction false} SelectedKinds(events: seq<RawEvent>, target: CalendarDate, allDay: bool)
    ensures forall item :: item in Selected(events, target, allDay) ==>
              (allDay <==> item.time.None?) && (item.time.Some? ==> ValidTime(item.time.value))
  {
    if events != [] {
      SelectedKinds(events[..|events| - 1], target, allDay);
    }
  }
}
