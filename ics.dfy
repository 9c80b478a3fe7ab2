/**
 * `createCalendar`: the calendar header and one VEVENT per event, as abstract records.
 * The creation, stamp and modification times (wall-clock values) are not modelled.
 */
module Ics {
  import opened GoStrings
  import opened Dates
  import opened Domain

  /** One VEVENT: its UID, a UTC-midnight start and the end 24 hours later, its summary and description. */
  datatype VEvent = VEvent(uid: string, start: Date, end: Date, summary: string, description: string)

  /** The calendar container: METHOD, CALSCALE, NAME, DESCRIPTION and its entries. */
  datatype Calendar = Calendar(icalMethod: string, calScale: string, name: string, description: string, entries: seq<VEvent>)

  /** The VEVENT `createCalendar` adds for one event. */
  function EntryOf(e: Event): VEvent
  {
    VEvent(e.name + "-" + NatToDecimal(e.date.year),
           e.date,
           NextDay(e.date),
           e.name + " (" + e.item + ")",
           e.group + " event")
  }

  ghost function Header(name: string): Calendar
  {
    Calendar("PUBLISH", "GREGORIAN", "Global Calendar - " + name, "AI-generated calendar of events for " + name, [])
  }

  /** The calendar `createCalendar(events, name)` returns. */
  ghost function CalendarOf(events: seq<Event>, name: string): Calendar
  {
    Header(name).(entries := seq(|events|, i requires 0 <= i < |events| => EntryOf(events[i])))
  }

  method CreateCalendar(events: seq<Event>, name: string) returns (cal: Calendar)
    ensures cal == CalendarOf(events, name)
  {
    cal := Calendar("PUBLISH", "GREGORIAN", "Global Calendar - " + name, "AI-generated calendar of events for " + name, []);
    for k := 0 to |events|
      invariant cal == CalendarOf(events[..k], name)
    {
      cal := cal.(entries := cal.entries + [EntryOf(events[k])]);
    }
    assert events[..|events|] == events;
  }

  /**
   * A calendar has one entry per event, in order; each starts on the event's date and
   * ends exactly one day (24 hours) later, and its UID is the name, a dash and the year
   * in decimal without leading zeros, from which the year reads back.
   */
  lemma CalendarEntries(events: seq<Event>, name: string)
    ensures var cal := CalendarOf(events, name);
      && cal.icalMethod == "PUBLISH" && cal.calScale == "GREGORIAN"
      && cal.name == "Global Calendar - " + name
      && cal.description == "AI-generated calendar of events for " + name
      && |cal.entries| == |events|
    ensures forall i :: 0 <= i < |events| ==>
      var v := CalendarOf(events, name).entries[i];
      && v.start == events[i].date
      && DayNumber(v.end) == DayNumber(v.start) + 1
      && v.summary == events[i].name + " (" + events[i].item + ")"
      && v.description == events[i].group + " event"
      && v.uid[..|events[i].name| + 1] == events[i].name + "-"
      && AllDigits(v.uid[|events[i].name| + 1..])
      && DecimalValue(v.uid[|events[i].name| + 1..]) == events[i].date.year
      && (|v.uid| > |events[i].name| + 2 ==> v.uid[|events[i].name| + 1] != '0')
  {
    forall i | 0 <= i < |events|
      ensures var v := CalendarOf(events, name).entries[i];
        && v.start == events[i].date
        && DayNumber(v.end) == DayNumber(v.start) + 1
        && v.summary == events[i].name + " (" + events[i].item + ")"
        && v.description == events[i].group + " event"
        && v.uid[..|events[i].name| + 1] == events[i].name + "-"
        && AllDigits(v.uid[|events[i].name| + 1..])
        && DecimalValue(v.uid[|events[i].name| + 1..]) == events[i].date.year
        && (|v.uid| > |events[i].name| + 2 ==> v.uid[|events[i].name| + 1] != '0')
    {
      EntryFacts(events[i]);
    }
  }

  lemma EntryFacts(e: Event)
    ensures var v := EntryOf(e);
      && v.start == e.date
      && DayNumber(v.end) == DayNumber(v.start) + 1
      && v.uid[..|e.name| + 1] == e.name + "-"
      && AllDigits(v.uid[|e.name| + 1..])
      && DecimalValue(v.uid[|e.name| + 1..]) == e.date.year
      && (|v.uid| > |e.name| + 2 ==> v.uid[|e.name| + 1] != '0')
  {
    var v := EntryOf(e);
    NextDayIsOneDayLater(e.date);
    DecimalRoundTrip(e.date.year);
    assert v.uid[|e.name| + 1..] == NatToDecimal(e.date.year);
    assert v.uid[..|e.name| + 1] == e.name + "-";
  }

  /**
   * The UID depends only on the name and the year, so two events of the same name in
   * the same year share one even when their items, groups or days differ.
   */
  lemma UidCollision(a: Event, b: Event)
    requires a.name == b.name && a.date.year == b.date.year
    ensures EntryOf(a).uid == EntryOf(b).uid
  {
  }

  /** Calendars of concatenated event sequences concatenate their entries. */
  lemma CalendarOfAppend(a: seq<Event>, b: seq<Event>, name: string)
    ensures CalendarOf(a + b, name).entries == CalendarOf(a, name).entries + CalendarOf(b, name).entries
  {
  }
}
