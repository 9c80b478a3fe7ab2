/** The records of main.go: configured calendar items and groups, and parsed events. */
module Domain {
  import opened Dates

  /** One entry of a group's `calendarItems`. */
  datatype CalendarItem = CalendarItem(name: string, authorityUrl: string, additionalInfo: string)

  /** One configuration document: a group of items sharing one text-generation backend. */
  datatype GroupConfig = GroupConfig(groupName: string, calendarItems: seq<CalendarItem>, aiProvider: string)

  /** `Event`: `date` is the UTC midnight produced by the date parser. */
  datatype Event = Event(name: string, date: Date, item: string, group: string)

  /** The events with their `group` field overwritten by `group`, everything else kept. */
  function Retag(events: seq<Event>, group: string): (r: seq<Event>)
    ensures |r| == |events|
  {
    seq(|events|, i requires 0 <= i < |events| => events[i].(group := group))
  }

  lemma RetagMeaning(events: seq<Event>, group: string)
    ensures forall i :: 0 <= i < |events| ==>
      var e := Retag(events, group)[i];
      e.group == group && e.name == events[i].name && e.date == events[i].date && e.item == events[i].item
  {
  }

  lemma RetagAppend(a: seq<Event>, b: seq<Event>, group: string)
    ensures Retag(a + b, group) == Retag(a, group) + Retag(b, group)
  {
  }
}
