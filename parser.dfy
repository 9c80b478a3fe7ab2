/** `parseEvents`: the reply of the text service, line by line, into events. */
module Parser {
  import opened Wrappers
  import opened GoStrings
  import opened Dates
  import opened Domain

  /**
   * What one line contributes: an event when `Split(line, ": ")` has exactly two
   * pieces and the second is a date; nothing otherwise. The name is kept untrimmed
   * and the group is left empty for the caller to fill.
   */
  function LineEvent(line: string, itemName: string): Option<Event>
  {
    var parts := Split(line, ": ");
    if |parts| != 2 then None
    else match ParseDate(parts[1])
      case None => None
      case Some(date) => Some(Event(parts[0], date, itemName, ""))
  }

  /** The events of a sequence of lines, in line order. */
  ghost function EventsOfLines(lines: seq<string>, itemName: string): seq<Event>
  {
    if |lines| == 0 then []
    else
      EventsOfLines(lines[..|lines| - 1], itemName) +
      match LineEvent(lines[|lines| - 1], itemName)
      case None => []
      case Some(e) => [e]
  }

  /** The events `parseEvents(reply, itemName)` returns. */
  ghost function ParsedEvents(reply: string, itemName: string): seq<Event>
  {
    EventsOfLines(Split(reply, "\n"), itemName)
  }

  /** `parseEvents`: never fails; invalid lines are skipped (main.go only logs them). */
  method ParseEvents(reply: string, itemName: string) returns (r: Result<seq<Event>>)
    ensures r == Success(ParsedEvents(reply, itemName))
    ensures |r.value| <= |Split(reply, "\n")|
  {
    var events := [];
    var lines := Split(reply, "\n");
    for k := 0 to |lines|
      invariant events == EventsOfLines(lines[..k], itemName)
      invariant |events| <= k
    {
      assert lines[..k + 1][..k] == lines[..k];
      var line := lines[k];
      var parts := Split(line, ": ");
      if |parts| != 2 {
        continue;
      }
      var date := ParseDate(parts[1]);
      if date.None? {
        continue;
      }
      events := events + [Event(parts[0], date.value, itemName, "")];
    }
    assert lines[..|lines|] == lines;
    r := Success(events);
  }

  /** A kept line is `name + ": " + date` with a one-separator name, and becomes exactly that event. */
  lemma LineEventSound(line: string, itemName: string)
    requires LineEvent(line, itemName).Some?
    ensures var e := LineEvent(line, itemName).value;
      e.date.year <= 9999 && line == e.name + ": " + FormatDate(e.date) && !Contains(e.name, ": ") &&
      e.item == itemName && e.group == ""
  {
    var parts := Split(line, ": ");
    SplitColonSpace(line, parts[0], parts[1]);
    assert parts == [parts[0], parts[1]];
  }

  /** Every line of that shape is kept. */
  lemma LineEventComplete(name: string, date: Date, itemName: string)
    requires date.year <= 9999 && !Contains(name, ": ")
    ensures LineEvent(name + ": " + FormatDate(date), itemName) == Some(Event(name, date, itemName, ""))
  {
    var text := FormatDate(date);
    FormatDateChars(date);
    SplitWithoutSeparator(text, ": ");
    SplitColonSpace(name + ": " + text, name, text);
    ParseFormat(date);
  }

  /** A line that ends in a carriage return (a CRLF reply) is always dropped. */
  lemma CarriageReturnDropped(line: string, itemName: string)
    ensures LineEvent(line + "\r", itemName).None?
  {
    if LineEvent(line + "\r", itemName).Some? {
      LineEventSound(line + "\r", itemName);
      assert false;
    }
  }

  /** Parsing the concatenation of two line sequences yields the two results in order. */
  lemma {:induction false} EventsOfLinesAppend(a: seq<string>, b: seq<string>, itemName: string)
    decreases |b|
    ensures EventsOfLines(a + b, itemName) == EventsOfLines(a, itemName) + EventsOfLines(b, itemName)
  {
    if |b| > 0 {
      var b' := b[..|b| - 1];
      assert (a + b)[..|a + b| - 1] == a + b';
      assert (a + b)[|a + b| - 1] == b[|b| - 1];
      EventsOfLinesAppend(a, b', itemName);
    } else {
      assert a + b == a;
    }
  }

  /** Each parsed event comes from one of the lines, carries the item name and no group. */
  lemma {:induction false} EventsOfLinesOrigin(lines: seq<string>, itemName: string)
    ensures |EventsOfLines(lines, itemName)| <= |lines|
    ensures forall e :: e in EventsOfLines(lines, itemName) ==>
      e.item == itemName && e.group == "" && exists i :: 0 <= i < |lines| && LineEvent(lines[i], itemName) == Some(e)
  {
    if |lines| > 0 {
      var init := lines[..|lines| - 1];
      EventsOfLinesOrigin(init, itemName);
      forall e | e in EventsOfLines(lines, itemName)
        ensures e.item == itemName && e.group == "" && exists i :: 0 <= i < |lines| && LineEvent(lines[i], itemName) == Some(e)
      {
        if e in EventsOfLines(init, itemName) {
          var i :| 0 <= i < |init| && LineEvent(init[i], itemName) == Some(e);
          assert lines[i] == init[i];
        } else {
          var last := |lines| - 1;
          assert LineEvent(lines[last], itemName) == Some(e);
        }
      }
    }
  }

  /** A one-line reply in the requested format yields exactly one event. */
  lemma OneLineReply(name: string, date: Date, itemName: string)
    requires date.year <= 9999 && !Contains(name, ": ")
    requires forall k :: 0 <= k < |name| ==> name[k] != '\n'
    ensures ParsedEvents(name + ": " + FormatDate(date), itemName) == [Event(name, date, itemName, "")]
  {
    var text := FormatDate(date);
    var line := name + ": " + text;
    LineEventComplete(name, date, itemName);
    FormatDateChars(date);
    forall k | 0 <= k < |line|
      ensures line[k] != '\n'
    {
      if k >= |name| + 2 {
        assert line[k] == text[k - |name| - 2];
      }
    }
    SplitWithoutSeparator(line, "\n");
    assert [line][..0] == [];
    assert EventsOfLines([line], itemName) == EventsOfLines([], itemName) + [Event(name, date, itemName, "")];
  }
}
