/**
 * `generateICSFiles`: which calendar files are written, in which order, under which
 * names and with which events, and where writing stops when a write fails.
 * File names are relative to the `docs` directory.
 */
module IcsFiles {
  import opened GoStrings
  import opened Domain
  import opened Filters
  import opened Ics

  /** `strings.ToLower(strings.ReplaceAll(s, " ", "_"))`, with ASCII case mapping. */
  function Slug(s: string): string
  {
    ToLower(ReplaceAll(s, ' ', '_'))
  }

  /**
   * A slug is as long as the text it is made from: each space becomes `_`, each upper-case
   * ASCII letter its lower-case form, and every other character stays.
   */
  lemma SlugShape(s: string)
    ensures |Slug(s)| == |s|
    ensures forall i :: 0 <= i < |s| ==> Slug(s)[i] != ' ' && !IsUpperAscii(Slug(s)[i])
    ensures forall i :: 0 <= i < |s| && s[i] == ' ' ==> Slug(s)[i] == '_'
    ensures forall i :: 0 <= i < |s| && IsUpperAscii(s[i]) ==> Slug(s)[i] as int == s[i] as int + 32
    ensures forall i :: 0 <= i < |s| && s[i] != ' ' && !IsUpperAscii(s[i]) ==> Slug(s)[i] == s[i]
  {
    ReplaceAllMeaning(s, ' ', '_');
    ToLowerMeaning(ReplaceAll(s, ' ', '_'));
  }

  lemma SlugIdempotent(s: string)
    ensures Slug(Slug(s)) == Slug(s)
  {
    SlugShape(s);
    SlugShape(Slug(s));
  }

  /** Exactly the texts without spaces and upper-case ASCII letters are their own slugs. */
  lemma SlugFixedPoints(s: string)
    ensures Slug(s) == s <==> forall i :: 0 <= i < |s| ==> s[i] != ' ' && !IsUpperAscii(s[i])
  {
    SlugShape(s);
    if Slug(s) == s {
      forall i | 0 <= i < |s|
        ensures s[i] != ' ' && !IsUpperAscii(s[i])
      {
        assert Slug(s)[i] == s[i];
      }
    }
  }

  /** Different names can share a slug, and so a file name. */
  lemma SlugCollision()
    ensures Slug("Day Of") == Slug("day_of")
  {
  }

  function GroupFileName(group: string): string
  {
    Slug(group) + "_events.ics"
  }

  function ItemFileName(group: string, item: string): string
  {
    Slug(group) + "_" + Slug(item) + "_events.ics"
  }

  const AllFileName: string := "all_events.ics"
  const AllTitle: string := "All Events"

  /** A file to write: its name, the name given to `createCalendar`, and its events. */
  datatype PlannedFile = PlannedFile(fileName: string, title: string, events: seq<Event>)

  /** A file written successfully, with the calendar serialized into it. */
  datatype WrittenFile = WrittenFile(fileName: string, calendar: Calendar)

  ghost function GroupFile(events: seq<Event>, g: GroupConfig): PlannedFile
  {
    PlannedFile(GroupFileName(g.groupName), g.groupName, Filter(events, GroupField, g.groupName))
  }

  ghost function ItemFile(events: seq<Event>, g: GroupConfig, item: CalendarItem): PlannedFile
  {
    PlannedFile(ItemFileName(g.groupName, item.name), item.name, Filter(events, ItemField, item.name))
  }

  ghost function AllFile(events: seq<Event>): PlannedFile
  {
    PlannedFile(AllFileName, AllTitle, events)
  }

  /** A file is only written when it has at least one event. */
  ghost function IfNonEmpty(f: PlannedFile): seq<PlannedFile>
  {
    if |f.events| > 0 then [f] else []
  }

  ghost function ItemFiles(events: seq<Event>, g: GroupConfig, items: seq<CalendarItem>): seq<PlannedFile>
  {
    if |items| == 0 then []
    else IfNonEmpty(ItemFile(events, g, items[0])) + ItemFiles(events, g, items[1..])
  }

  /** The group's own file, then one file per item of the group, each only if it has events. */
  ghost function GroupFiles(events: seq<Event>, g: GroupConfig): seq<PlannedFile>
  {
    IfNonEmpty(GroupFile(events, g)) + ItemFiles(events, g, g.calendarItems)
  }

  ghost function GroupsFiles(events: seq<Event>, configs: seq<GroupConfig>): seq<PlannedFile>
  {
    if |configs| == 0 then []
    else GroupFiles(events, configs[0]) + GroupsFiles(events, configs[1..])
  }

  /** The files `generateICSFiles(events, configs)` writes, in order, when no write fails. */
  ghost function Plan(events: seq<Event>, configs: seq<GroupConfig>): seq<PlannedFile>
  {
    if |events| == 0 then [] else GroupsFiles(events, configs) + [AllFile(events)]
  }

  ghost function Render(f: PlannedFile): WrittenFile
  {
    WrittenFile(f.fileName, CalendarOf(f.events, f.title))
  }

  ghost function RenderAll(files: seq<PlannedFile>): (r: seq<WrittenFile>)
    ensures |r| == |files|
  {
    seq(|files|, i requires 0 <= i < |files| => Render(files[i]))
  }

  /** `written` renders the files `done`, and none of those writes failed. */
  ghost predicate WroteAll(written: seq<WrittenFile>, done: seq<PlannedFile>, fails: nat -> bool)
  {
    written == RenderAll(done) && forall k :: 0 <= k < |written| ==> !fails(k)
  }

  /**
   * `generateICSFiles`. `fails(k)` says whether the k-th file write (creating the file
   * or serializing the calendar into it) fails. The files written are the plan's files
   * up to the first failure; the result is success exactly when the whole plan was written.
   */
  method GenerateICSFiles(events: seq<Event>, configs: seq<GroupConfig>, fails: nat -> bool)
    returns (written: seq<WrittenFile>, ok: bool)
    ensures |written| <= |Plan(events, configs)|
    ensures written == RenderAll(Plan(events, configs)[..|written|])
    ensures forall k :: 0 <= k < |written| ==> !fails(k)
    ensures ok <==> |written| == |Plan(events, configs)|
    ensures !ok ==> fails(|written|)
  {
    written := [];
    if |events| == 0 {
      return written, true;
    }
    ghost var done: seq<PlannedFile>;
    var groupsOk;
    written, groupsOk, done := WriteGroupsFiles(events, configs, fails);
    if !groupsOk {
      StrictPrefixExtend(done, GroupsFiles(events, configs), [AllFile(events)]);
      return written, false;
    }
    // `generateICSFiles` tests `len(events) > 0` again here; it always holds at this point.
    var all := PlannedFile(AllFileName, AllTitle, events);
    written, ok := WriteFile(all, fails, written, done);
  }

  /** The loop of `generateICSFiles` over the groups. */
  method WriteGroupsFiles(events: seq<Event>, configs: seq<GroupConfig>, fails: nat -> bool)
    returns (written: seq<WrittenFile>, ok: bool, ghost done: seq<PlannedFile>)
    ensures WroteAll(written, done, fails)
    ensures ok ==> done == GroupsFiles(events, configs)
    ensures !ok ==> fails(|written|) && IsStrictPrefix(done, GroupsFiles(events, configs))
  {
    written, done := [], [];
    assert configs[0..] == configs;
    for gi := 0 to |configs|
      invariant done + GroupsFiles(events, configs[gi..]) == GroupsFiles(events, configs)
      invariant WroteAll(written, done, fails)
    {
      GroupsFilesStep(events, configs, gi, done);
      ghost var done0 := done;
      written, ok, done := WriteGroupFiles(events, configs[gi], fails, written, done);
      if !ok {
        StrictPrefixExtend(done, done0 + GroupFiles(events, configs[gi]), GroupsFiles(events, configs[gi + 1..]));
        return;
      }
    }
    ok := true;
  }

  /** The body of that loop: one group's own file, then its items' files. */
  method WriteGroupFiles(events: seq<Event>, g: GroupConfig, fails: nat -> bool,
                         written0: seq<WrittenFile>, ghost done0: seq<PlannedFile>)
    returns (written: seq<WrittenFile>, ok: bool, ghost done: seq<PlannedFile>)
    requires WroteAll(written0, done0, fails)
    ensures WroteAll(written, done, fails)
    ensures ok ==> done == done0 + GroupFiles(events, g)
    ensures !ok ==> fails(|written|) && IsStrictPrefix(done, done0 + GroupFiles(events, g))
  {
    GroupFilesSplit(events, g, done0);
    ghost var head := done0 + IfNonEmpty(GroupFile(events, g));
    written, ok, done := WriteGroupFile(events, g, fails, written0, done0);
    if !ok {
      StrictPrefixExtend(done, head, ItemFiles(events, g, g.calendarItems));
      return;
    }
    written, ok, done := WriteItemFiles(events, g, fails, written, done);
  }

  /** A group's own file, written when the group has events. */
  method WriteGroupFile(events: seq<Event>, g: GroupConfig, fails: nat -> bool,
                        written0: seq<WrittenFile>, ghost done0: seq<PlannedFile>)
    returns (written: seq<WrittenFile>, ok: bool, ghost done: seq<PlannedFile>)
    requires WroteAll(written0, done0, fails)
    ensures WroteAll(written, done, fails)
    ensures ok ==> done == done0 + IfNonEmpty(GroupFile(events, g))
    ensures !ok ==> fails(|written|) && IsStrictPrefix(done, done0 + IfNonEmpty(GroupFile(events, g)))
  {
    written, ok, done := written0, true, done0;
    var groupEvents := FilterEventsByGroup(events, g.groupName);
    if |groupEvents| > 0 {
      var f := PlannedFile(GroupFileName(g.groupName), g.groupName, groupEvents);
      written, ok := WriteFile(f, fails, written, done);
      if ok {
        done := done + [f];
      }
    }
  }

  /** The file of one item of a group, written when the item has events. */
  method WriteItemFile(events: seq<Event>, g: GroupConfig, item: CalendarItem, fails: nat -> bool,
                       written0: seq<WrittenFile>, ghost done0: seq<PlannedFile>)
    returns (written: seq<WrittenFile>, ok: bool, ghost done: seq<PlannedFile>)
    requires WroteAll(written0, done0, fails)
    ensures WroteAll(written, done, fails)
    ensures ok ==> done == done0 + IfNonEmpty(ItemFile(events, g, item))
    ensures !ok ==> fails(|written|) && IsStrictPrefix(done, done0 + IfNonEmpty(ItemFile(events, g, item)))
  {
    written, ok, done := written0, true, done0;
    var itemEvents := FilterEventsByItem(events, item.name);
    if |itemEvents| > 0 {
      var f := PlannedFile(ItemFileName(g.groupName, item.name), item.name, itemEvents);
      written, ok := WriteFile(f, fails, written, done);
      if ok {
        done := done + [f];
      }
    }
  }

  lemma GroupFilesSplit(events: seq<Event>, g: GroupConfig, done: seq<PlannedFile>)
    ensures done + GroupFiles(events, g) == (done + IfNonEmpty(GroupFile(events, g))) + ItemFiles(events, g, g.calendarItems)
  {
  }

  /** The loop of `generateICSFiles` over one group's items. */
  method WriteItemFiles(events: seq<Event>, g: GroupConfig, fails: nat -> bool,
                        written0: seq<WrittenFile>, ghost done0: seq<PlannedFile>)
    returns (written: seq<WrittenFile>, ok: bool, ghost done: seq<PlannedFile>)
    requires WroteAll(written0, done0, fails)
    ensures WroteAll(written, done, fails)
    ensures ok ==> done == done0 + ItemFiles(events, g, g.calendarItems)
    ensures !ok ==> fails(|written|) && IsStrictPrefix(done, done0 + ItemFiles(events, g, g.calendarItems))
  {
    ghost var target := done0 + ItemFiles(events, g, g.calendarItems);
    written, done := written0, done0;
    assert g.calendarItems[0..] == g.calendarItems;
    for ii := 0 to |g.calendarItems|
      invariant done + ItemFiles(events, g, g.calendarItems[ii..]) == target
      invariant WroteAll(written, done, fails)
    {
      var item := g.calendarItems[ii];
      ItemFilesStep(events, g, g.calendarItems, ii, done, target);
      ghost var head := done + IfNonEmpty(ItemFile(events, g, item));
      written, ok, done := WriteItemFile(events, g, item, fails, written, done);
      if !ok {
        StrictPrefixExtend(done, head, ItemFiles(events, g, g.calendarItems[ii + 1..]));
        return;
      }
    }
    ok := true;
  }

  /** One file write of `generateICSFiles`: build the calendar and write it, unless the write fails. */
  method WriteFile(f: PlannedFile, fails: nat -> bool, written0: seq<WrittenFile>, ghost done: seq<PlannedFile>)
    returns (written: seq<WrittenFile>, ok: bool)
    requires WroteAll(written0, done, fails)
    ensures ok <==> !fails(|written0|)
    ensures ok ==> WroteAll(written, done + [f], fails)
    ensures !ok ==> written == written0
  {
    var cal := CreateCalendar(f.events, f.title);
    if fails(|written0|) {
      return written0, false;
    }
    written, ok := written0 + [WrittenFile(f.fileName, cal)], true;
    RenderAllSnoc(done, f);
  }

  lemma RenderAllSnoc(done: seq<PlannedFile>, f: PlannedFile)
    ensures RenderAll(done + [f]) == RenderAll(done) + [Render(f)]
  {
  }

  /** Moving past one group in the loop over the groups. */
  lemma GroupsFilesStep(events: seq<Event>, configs: seq<GroupConfig>, gi: nat, done: seq<PlannedFile>)
    requires gi < |configs|
    requires done + GroupsFiles(events, configs[gi..]) == GroupsFiles(events, configs)
    ensures (done + GroupFiles(events, configs[gi])) + GroupsFiles(events, configs[gi + 1..]) == GroupsFiles(events, configs)
  {
    var rest := configs[gi..];
    assert rest[0] == configs[gi] && rest[1..] == configs[gi + 1..];
    var head, tail := GroupFiles(events, configs[gi]), GroupsFiles(events, configs[gi + 1..]);
    assert GroupsFiles(events, rest) == head + tail;
    assert done + (head + tail) == (done + head) + tail;
  }

  /** Moving past one item in the loop over a group's items. */
  lemma ItemFilesStep(events: seq<Event>, g: GroupConfig, items: seq<CalendarItem>, ii: nat,
                      done: seq<PlannedFile>, target: seq<PlannedFile>)
    requires ii < |items|
    requires done + ItemFiles(events, g, items[ii..]) == target
    ensures (done + IfNonEmpty(ItemFile(events, g, items[ii]))) + ItemFiles(events, g, items[ii + 1..]) == target
  {
    assert items[ii..][1..] == items[ii + 1..];
  }

  ghost predicate IsStrictPrefix<T>(p: seq<T>, s: seq<T>)
  {
    |p| < |s| && s[..|p|] == p
  }

  lemma StrictPrefixExtend<T>(p: seq<T>, s: seq<T>, t: seq<T>)
    requires IsStrictPrefix(p, s)
    ensures IsStrictPrefix(p, s + t)
  {
    assert (s + t)[..|p|] == s[..|p|];
  }

  // What the plan contains.

  /** No events, no files. */
  lemma PlanOfNoEvents(configs: seq<GroupConfig>)
    ensures Plan([], configs) == []
  {
  }

  /** With events, the last file is `all_events.ics` holding every event. */
  lemma PlanEndsWithAll(events: seq<Event>, configs: seq<GroupConfig>)
    requires |events| > 0
    ensures |Plan(events, configs)| > 0
    ensures Plan(events, configs)[|Plan(events, configs)| - 1] == PlannedFile("all_events.ics", "All Events", events)
  {
  }

  ghost predicate IsGroupFileOf(f: PlannedFile, events: seq<Event>, configs: seq<GroupConfig>)
  {
    exists j :: 0 <= j < |configs| && f == GroupFile(events, configs[j])
  }

  ghost predicate IsItemFileOf(f: PlannedFile, events: seq<Event>, configs: seq<GroupConfig>)
  {
    exists j, k :: 0 <= j < |configs| && 0 <= k < |configs[j].calendarItems| && f == ItemFile(events, configs[j], configs[j].calendarItems[k])
  }

  lemma {:induction false} ItemFilesSound(events: seq<Event>, g: GroupConfig, items: seq<CalendarItem>)
    ensures forall f :: f in ItemFiles(events, g, items) ==>
      |f.events| > 0 && exists k :: 0 <= k < |items| && f == ItemFile(events, g, items[k])
  {
    if |items| > 0 {
      ItemFilesSound(events, g, items[1..]);
      forall f | f in ItemFiles(events, g, items)
        ensures |f.events| > 0 && exists k :: 0 <= k < |items| && f == ItemFile(events, g, items[k])
      {
        if f !in IfNonEmpty(ItemFile(events, g, items[0])) {
          var k :| 0 <= k < |items[1..]| && f == ItemFile(events, g, items[1..][k]);
          assert f == ItemFile(events, g, items[k + 1]);
        }
      }
    }
  }

  lemma {:induction false} GroupsFilesSound(events: seq<Event>, configs: seq<GroupConfig>)
    ensures forall f :: f in GroupsFiles(events, configs) ==>
      |f.events| > 0 && (IsGroupFileOf(f, events, configs) || IsItemFileOf(f, events, configs))
  {
    if |configs| > 0 {
      var g, tail := configs[0], configs[1..];
      GroupsFilesSound(events, tail);
      ItemFilesSound(events, g, g.calendarItems);
      forall f | f in GroupsFiles(events, configs)
        ensures |f.events| > 0 && (IsGroupFileOf(f, events, configs) || IsItemFileOf(f, events, configs))
      {
        if f in IfNonEmpty(GroupFile(events, g)) {
          assert f == GroupFile(events, configs[0]);
        } else if f in ItemFiles(events, g, g.calendarItems) {
          var k :| 0 <= k < |g.calendarItems| && f == ItemFile(events, g, g.calendarItems[k]);
          assert f == ItemFile(events, configs[0], configs[0].calendarItems[k]);
        } else if IsGroupFileOf(f, events, tail) {
          var j :| 0 <= j < |tail| && f == GroupFile(events, tail[j]);
          assert f == GroupFile(events, configs[j + 1]);
        } else {
          assert IsItemFileOf(f, events, tail);
          var j, k :| 0 <= j < |tail| && 0 <= k < |tail[j].calendarItems| && f == ItemFile(events, tail[j], tail[j].calendarItems[k]);
          assert f == ItemFile(events, configs[j + 1], configs[j + 1].calendarItems[k]);
        }
      }
    }
  }

  /**
   * Every planned file holds at least one event and is the all-events file, the file of
   * one group holding that group's events, or the file of one item holding that item's events.
   */
  lemma {:induction false} PlanSound(events: seq<Event>, configs: seq<GroupConfig>)
    ensures forall f :: f in Plan(events, configs) ==>
      |f.events| > 0 && (f == AllFile(events) || IsGroupFileOf(f, events, configs) || IsItemFileOf(f, events, configs))
  {
    GroupsFilesSound(events, configs);
  }

  lemma {:induction false} ItemFilesComplete(events: seq<Event>, g: GroupConfig, items: seq<CalendarItem>, k: nat)
    requires k < |items|
    requires |Filter(events, ItemField, items[k].name)| > 0
    ensures ItemFile(events, g, items[k]) in ItemFiles(events, g, items)
  {
    if k > 0 {
      ItemFilesComplete(events, g, items[1..], k - 1);
    }
  }

  lemma {:induction false} GroupsFilesContain(events: seq<Event>, configs: seq<GroupConfig>, j: nat, f: PlannedFile)
    requires j < |configs|
    requires f in GroupFiles(events, configs[j])
    ensures f in GroupsFiles(events, configs)
  {
    if j > 0 {
      GroupsFilesContain(events, configs[1..], j - 1, f);
    }
  }

  /** With events, every group with events gets its file. */
  lemma {:induction false} PlanHasGroupFile(events: seq<Event>, configs: seq<GroupConfig>, j: nat)
    requires |events| > 0 && j < |configs|
    requires |Filter(events, GroupField, configs[j].groupName)| > 0
    ensures GroupFile(events, configs[j]) in Plan(events, configs)
  {
    GroupsFilesContain(events, configs, j, GroupFile(events, configs[j]));
  }

  /** With events, every configured item with events gets a file under each group that lists it. */
  lemma {:induction false} PlanHasItemFile(events: seq<Event>, configs: seq<GroupConfig>, j: nat, k: nat)
    requires |events| > 0 && j < |configs| && k < |configs[j].calendarItems|
    requires |Filter(events, ItemField, configs[j].calendarItems[k].name)| > 0
    ensures ItemFile(events, configs[j], configs[j].calendarItems[k]) in Plan(events, configs)
  {
    var g := configs[j];
    ItemFilesComplete(events, g, g.calendarItems, k);
    GroupsFilesContain(events, configs, j, ItemFile(events, g, g.calendarItems[k]));
  }

  /** A calendar file name: ends in "_events.ics", no space, no upper-case ASCII letter. */
  ghost predicate IsCleanFileName(name: string)
  {
    |name| >= 11 && name[|name| - 11..] == "_events.ics" &&
    forall i :: 0 <= i < |name| ==> name[i] != ' ' && !IsUpperAscii(name[i])
  }

  lemma GroupFileNameClean(group: string)
    ensures IsCleanFileName(GroupFileName(group))
  {
    SlugShape(group);
    var name := GroupFileName(group);
    assert name[|name| - 11..] == "_events.ics";
  }

  lemma ItemFileNameClean(group: string, item: string)
    ensures IsCleanFileName(ItemFileName(group, item))
  {
    SlugShape(group);
    SlugShape(item);
    var name := ItemFileName(group, item);
    assert name[|name| - 11..] == "_events.ics";
  }

  lemma {:induction false} ItemFilesNames(events: seq<Event>, g: GroupConfig, items: seq<CalendarItem>)
    ensures forall f :: f in ItemFiles(events, g, items) ==> IsCleanFileName(f.fileName)
  {
    if |items| > 0 {
      ItemFileNameClean(g.groupName, items[0].name);
      ItemFilesNames(events, g, items[1..]);
    }
  }

  lemma {:induction false} GroupsFilesNames(events: seq<Event>, configs: seq<GroupConfig>)
    ensures forall f :: f in GroupsFiles(events, configs) ==> IsCleanFileName(f.fileName)
  {
    if |configs| > 0 {
      GroupFileNameClean(configs[0].groupName);
      ItemFilesNames(events, configs[0], configs[0].calendarItems);
      GroupsFilesNames(events, configs[1..]);
    }
  }

  /** Every planned file name is clean. */
  lemma PlanFileNames(events: seq<Event>, configs: seq<GroupConfig>)
    ensures forall f :: f in Plan(events, configs) ==> IsCleanFileName(f.fileName)
  {
    GroupsFilesNames(events, configs);
    assert IsCleanFileName(AllFileName);
  }
}
