/** `filterEventsByItem` and `filterEventsByGroup`: order-preserving selection on one field. */
module Filters {
  import opened Domain

  datatype Field = ItemField | GroupField

  function FieldOf(e: Event, field: Field): string
  {
    match field
    case ItemField => e.item
    case GroupField => e.group
  }

  /** The events whose `field` equals `key`, in their original order. */
  ghost function Filter(events: seq<Event>, field: Field, key: string): seq<Event>
  {
    if |events| == 0 then []
    else
      var last := events[|events| - 1];
      Filter(events[..|events| - 1], field, key) + if FieldOf(last, field) == key then [last] else []
  }

  /** The loop shared by `filterEventsByItem` and `filterEventsByGroup`. */
  method FilterEvents(events: seq<Event>, field: Field, key: string) returns (filtered: seq<Event>)
    ensures filtered == Filter(events, field, key)
    ensures forall e :: e in filtered ==> e in events && FieldOf(e, field) == key
  {
    filtered := [];
    for k := 0 to |events|
      invariant filtered == Filter(events[..k], field, key)
      invariant forall e :: e in filtered ==> e in events[..k] && FieldOf(e, field) == key
    {
      assert events[..k + 1][..k] == events[..k];
      if FieldOf(events[k], field) == key {
        filtered := filtered + [events[k]];
      }
    }
    assert events[..|events|] == events;
  }

  /** `filterEventsByItem`: not restricted to any group. */
  method FilterEventsByItem(events: seq<Event>, item: string) returns (filtered: seq<Event>)
    ensures filtered == Filter(events, ItemField, item)
  {
    filtered := FilterEvents(events, ItemField, item);
  }

  /** `filterEventsByGroup`. */
  method FilterEventsByGroup(events: seq<Event>, group: string) returns (filtered: seq<Event>)
    ensures filtered == Filter(events, GroupField, group)
  {
    filtered := FilterEvents(events, GroupField, group);
  }

  /** Filtering distributes over concatenation: relative order is preserved. */
  lemma {:induction false} FilterAppend(a: seq<Event>, b: seq<Event>, field: Field, key: string)
    decreases |b|
    ensures Filter(a + b, field, key) == Filter(a, field, key) + Filter(b, field, key)
  {
    if |b| > 0 {
      var b' := b[..|b| - 1];
      assert (a + b)[..|a + b| - 1] == a + b';
      assert (a + b)[|a + b| - 1] == b[|b| - 1];
      FilterAppend(a, b', field, key);
    } else {
      assert a + b == a;
    }
  }

  /** Every event is kept as often as it occurs if it matches, never otherwise. */
  lemma {:induction false} FilterCounts(events: seq<Event>, field: Field, key: string)
    ensures forall e ::
      multiset(Filter(events, field, key))[e] == (if FieldOf(e, field) == key then multiset(events)[e] else 0)
  {
    if |events| > 0 {
      var init := events[..|events| - 1];
      FilterCounts(init, field, key);
      assert events == init + [events[|events| - 1]];
    }
  }

  /** Every kept event is one of the input events and matches the key. */
  lemma {:induction false} FilterMembers(events: seq<Event>, field: Field, key: string)
    ensures |Filter(events, field, key)| <= |events|
    ensures forall i :: 0 <= i < |Filter(events, field, key)| ==>
      Filter(events, field, key)[i] in events && FieldOf(Filter(events, field, key)[i], field) == key
  {
    if |events| > 0 {
      var init := events[..|events| - 1];
      FilterMembers(init, field, key);
      var r := Filter(events, field, key);
      forall i | 0 <= i < |r|
        ensures r[i] in events && FieldOf(r[i], field) == key
      {
        if i < |Filter(init, field, key)| {
          assert r[i] == Filter(init, field, key)[i];
          assert r[i] in init;
        }
      }
    }
  }

  /** Filtering twice with the same key changes nothing more. */
  lemma {:induction false} FilterIdempotent(events: seq<Event>, field: Field, key: string)
    ensures Filter(Filter(events, field, key), field, key) == Filter(events, field, key)
  {
    FilterMembers(events, field, key);
    FilterOfMatching(Filter(events, field, key), field, key);
  }

  /** A sequence whose events all match is its own filter. */
  lemma {:induction false} FilterOfMatching(events: seq<Event>, field: Field, key: string)
    requires forall i :: 0 <= i < |events| ==> FieldOf(events[i], field) == key
    ensures Filter(events, field, key) == events
  {
    if |events| > 0 {
      FilterOfMatching(events[..|events| - 1], field, key);
    }
  }

  /** A sequence where no event matches filters to nothing. */
  lemma {:induction false} FilterOfNonMatching(events: seq<Event>, field: Field, key: string)
    requires forall i :: 0 <= i < |events| ==> FieldOf(events[i], field) != key
    ensures Filter(events, field, key) == []
  {
    if |events| > 0 {
      FilterOfNonMatching(events[..|events| - 1], field, key);
    }
  }

  /** The item filter ignores groups: one item name under two groups collects both groups' events. */
  lemma ItemFilterIgnoresGroup(a: Event, b: Event)
    requires a.item == b.item && a.group != b.group
    ensures Filter([a, b], ItemField, a.item) == [a, b]
  {
    FilterOfMatching([a, b], ItemField, a.item);
  }
}
