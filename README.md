# EthniCal calendar pipeline, modelled in Dafny

EthniCal (`main.go`) builds calendar files from a list of group configurations. Each group names its calendar items and a text-generation backend. For every item of every group, `main` does the following:

- it asks the backend for a list of events with a fixed prompt;
- it parses the reply line by line (`Event Name: YYYY-MM-DD`);
- it tags the events with the group's name;
- it gathers everything into one event list.

`generateICSFiles` then writes these iCalendar files, in this order:

- for each group, a file of its events;
- for each item of that group, a file of the item's events;
- one `all_events.ics` holding every event.

An HTML page is rendered only when every file was written.

The project models this deterministic core, one module per part of the program:

| module | file | what it models |
|---|---|---|
| `Wrappers` | wrappers.dfy | `Option` and `Result` (Go's `(value, error)` pairs) |
| `GoStrings` | gostrings.dfy | `strings.Index`, `strings.Split`, ASCII `strings.ToLower`, one-character `strings.ReplaceAll`, `%d` of a natural number; `Join` is a reference function that states what `Split` does |
| `Dates` | dates.dfy | `time.Parse("2006-01-02", …)` and `Add(24 * time.Hour)` as the next calendar day; `FormatDate` (the same layout printed) and a day number are reference functions that state what they do |
| `Domain` | domain.dfy | `CalendarItem`, `GroupConfig`, `Event`, and the group overwrite of `main`'s loop |
| `Parser` | parser.dfy | `parseEvents` |
| `Filters` | filters.dfy | `filterEventsByItem`, `filterEventsByGroup` |
| `Ics` | ics.dfy | `createCalendar`: the calendar header and one abstract VEVENT per event |
| `IcsFiles` | icsfiles.dfy | `generateICSFiles`: file names (slugs), the ordered file plan, and where writing stops on a failure |
| `Pipeline` | pipeline.dfy | `getAIProvider`, the prompt and `queryAI`, the gathering loop of `main`, and `main` itself |

The imperative parts of `main.go` are methods with loops, proved against ghost specification functions:

- the line loop of `parseEvents`;
- the filter loops;
- the entry loop of `createCalendar`;
- the nested loops of `generateICSFiles`, with their early returns;
- the gathering loop of `main`, including the in-place `events[i].Group = …` over an `array`.

The expression-like parts are functions: the date parser, the slug, the prompt and `getAIProvider`. Lemmas state the properties of both kinds.

The model has these inputs:

- The backends' `Query` is a parameter `query(provider, prompt)` that gives either `Answer(text)` or `QueryError(message)`.
- The environment variables `AI_API_KEY`, `AI_MODEL` and `DISABLE_AI` are a value `Env`.
- The loaded configurations are a value `seq<GroupConfig>`.
- Whether the n-th file write fails (creating the file or serializing into it) is a parameter `fails(n)`.

`main.go` handles no date ranges, trims no names and filters no placeholder names. It removes no duplicate events, never reports that no events were parsed, and builds an entry's UID from the event's name and year only. The model follows the code in all of this.

In `main.go`, `parseEvents` never returns an error. So the parse-error branch of `queryAI` (main.go:192-194) can never be taken, and `QueryAI` asserts that.

## Model

| member | source | states |
|---|---|---|
| GoStrings.Index | main.go:206 | `strings.Index`, with `None` for -1: the leftmost occurrence, by `IndexFrom`'s contract from position 0; `IndexIsFirst` gives the converse |
| GoStrings.IndexFrom | main.go:206 | the result is an occurrence of the separator at or after the start, no occurrence lies before it, and `None` means there is no occurrence at all |
| GoStrings.Split | main.go:203 | `strings.Split` with a non-empty separator always gives at least one piece |
| GoStrings.SplitJoin | main.go:203-206 | joining the pieces of `Split(s, sep)` with `sep` gives `s` back |
| GoStrings.SplitPiecesFree | main.go:203-206 | no piece of `Split(s, sep)` contains `sep` |
| GoStrings.SplitColonSpace | main.go:206-207 | splitting a line on `": "` gives exactly `[a, b]` if and only if the line is `a + ": " + b` and neither `a` nor `b` contains `": "` |
| GoStrings.SplitWithoutSeparator | main.go:203 | a text without the separator's first character contains no separator and splits into just itself |
| GoStrings.NatToDecimal | main.go:234 | the `%d` text of a natural number; `DecimalRoundTrip` states that it is canonical and reads back |
| GoStrings.DecimalRoundTrip | main.go:234 | the `%d` text of a year is a non-empty digit string without a leading zero that reads back as that year |
| GoStrings.ToLower | main.go:260 | lower-casing keeps the length |
| GoStrings.ToLowerMeaning | main.go:379 | after lower-casing no character is an upper-case ASCII letter; other characters are unchanged; upper-case letters move down by 32 |
| GoStrings.ReplaceAll | main.go:260 | replacing one character by another keeps the length |
| GoStrings.ReplaceAllMeaning | main.go:260 | every occurrence of `from` becomes `to`, and every other character stays |
| Dates.ParseDate | main.go:211 | an accepted text holds a year of at most four digits, and it is exactly the `2006-01-02` format of the date returned (so: 10 characters, dashes at 4 and 7, two-digit month and day, a real Gregorian date) |
| Dates.FormatOfDigits | main.go:211 | a 10-character text of digits with dashes at positions 4 and 7 is the format of the year, month and day its digits spell |
| Dates.ParseFormat | main.go:211 | every date with a four-digit year is accepted back from its own text (format then parse gives the date) |
| Dates.ParsedTextIsTenCharacters | main.go:211 | an accepted text is exactly ten characters, and any text after it, `"\r"` included, makes it rejected |
| Dates.FormatDateChars | main.go:211 | the text of a date is ten characters, each a digit or a dash |
| Dates.LeapDayInLeapYears | main.go:211 | February 29 is accepted in 2024 and 2000 |
| Dates.NoLeapDayInOtherYears | main.go:211 | February 29 is rejected in 2025 and in 1900 (a century that is not a leap year) |
| Dates.MonthFormExamples | main.go:211 | a one-digit month and month 13 are rejected |
| Dates.NextDay | main.go:239 | `Add(24 * time.Hour)` of a UTC midnight: the following calendar day, rolling over month and year; `NextDayIsOneDayLater`, `NextDayIsUnique`, `FebruaryRollover` and `YearRollover` state what it is |
| Dates.NextDayIsOneDayLater | main.go:239 | the end date `Add(24 * time.Hour)` is exactly one day later by the day-number reference |
| Dates.NextDayIsUnique | main.go:239 | no other date is one day later, so `NextDay` is the unique successor |
| Dates.DayNumberInjective | main.go:239 | different dates have different day numbers (the reference is sound) |
| Dates.FebruaryRollover | main.go:239 | February 28 is followed by February 29 in leap years and by March 1 otherwise |
| Dates.YearRollover | main.go:239 | December 31 is followed by January 1 of the next year |
| Domain.Retag | main.go:400-402 | retagging keeps the number of events |
| Domain.RetagMeaning | main.go:400-402 | each retagged event is the original with only its group replaced |
| Domain.RetagAppend | main.go:400-404 | retagging commutes with concatenation |
| Parser.LineEvent | main.go:206-220 | the body of the line loop: an event when the line splits on `": "` into exactly two pieces and the second parses as a date; `LineEventSound`, `LineEventComplete` and `CarriageReturnDropped` state which lines are kept and what they become |
| Parser.EventsOfLines | main.go:205-221 | the events of the lines in order, one per kept line; `EventsOfLinesAppend` and `EventsOfLinesOrigin` state its meaning |
| Parser.ParsedEvents | main.go:203-221 | the events of the reply's lines split on `"\n"`; `OneLineReply` and the `EventsOfLines` lemmas state its meaning |
| Parser.ParseEvents | main.go:201-224 | the loop always succeeds (Go's nil error) and returns the events of the kept lines, in line order, no more events than lines |
| Parser.LineEventSound | main.go:205-220 | a kept line is `name + ": " + date text` with no `": "` in the name; its event has that name (untrimmed), that date, the item name and an empty group |
| Parser.LineEventComplete | main.go:205-220 | every line `name + ": " + date text` whose name has no `": "` is kept as exactly that event |
| Parser.CarriageReturnDropped | main.go:203-214 | a line that ends in `"\r"` (a CRLF reply) never yields an event |
| Parser.EventsOfLinesAppend | main.go:205-221 | the events of two runs of lines are the events of each, in order |
| Parser.EventsOfLinesOrigin | main.go:205-221 | there are at most as many events as lines; each event carries the item name and an empty group, and is what one of the lines yields |
| Parser.OneLineReply | main.go:201-224 | a one-line reply in the requested format yields exactly that one event |
| Filters.Filter | main.go:306-324 | the events whose field equals the key, in order; `FilterAppend`, `FilterCounts`, `FilterMembers` and `FilterIdempotent` state its meaning |
| Filters.FilterEvents | main.go:306-324 | the loop returns the filter of the events, and every kept event is an input event whose field equals the key |
| Filters.FilterEventsByItem | main.go:306-314 | `filterEventsByItem` is the filter on the item field |
| Filters.FilterEventsByGroup | main.go:316-324 | `filterEventsByGroup` is the filter on the group field |
| Filters.FilterAppend | main.go:306-324 | filtering distributes over concatenation, so relative order is kept |
| Filters.FilterCounts | main.go:306-324 | each matching event occurs in the result as often as in the input; each non-matching event does not occur (the result is exactly the matching subsequence as a multiset) |
| Filters.FilterMembers | main.go:306-324 | the result is no longer than the input and holds only input events that match |
| Filters.FilterIdempotent | main.go:306-324 | filtering twice with the same key is filtering once |
| Filters.FilterOfMatching | main.go:306-324 | a sequence whose events all match is its own filter |
| Filters.FilterOfNonMatching | main.go:306-324 | a sequence where no event matches filters to nothing |
| Filters.ItemFilterIgnoresGroup | main.go:273 | the item filter is not scoped to a group: events of one item name under two groups are both kept |
| Ics.EntryOf | main.go:234-241 | the VEVENT for one event; `EntryFacts` and `UidCollision` state its UID, start and end |
| Ics.CalendarOf | main.go:226-242 | the calendar of a sequence of events; `CalendarEntries` and `CalendarOfAppend` state its header and entries |
| Ics.CreateCalendar | main.go:226-245 | the loop builds the calendar of the events in order |
| Ics.CalendarEntries | main.go:226-242 | the header is PUBLISH, GREGORIAN, `"Global Calendar - " + name` and the matching description; one entry per event in order; each starts on the event's date and ends one day later; the summary is `name (item)`, the description `group event`; the UID is the name, a dash and the year's digits without a leading zero, which read back as the year |
| Ics.EntryFacts | main.go:234-239 | one entry: its start, its end one day later and its UID split into the name and the year's digits without a leading zero |
| Ics.UidCollision | main.go:234 | two events with the same name in the same year get the same UID, whatever their days, items or groups |
| Ics.CalendarOfAppend | main.go:233-242 | the entries of concatenated events are the concatenated entries |
| IcsFiles.Slug | main.go:260 | `strings.ToLower(strings.ReplaceAll(s, " ", "_"))` with ASCII case mapping; `SlugShape` states it character by character (a space becomes `_`, an upper-case ASCII letter its lower-case form, everything else stays); `SlugIdempotent`, `SlugFixedPoints` and `SlugCollision` follow |
| IcsFiles.GroupFileName | main.go:260 | the slug of the group followed by `_events.ics`; `GroupFileNameClean` states its shape |
| IcsFiles.ItemFileName | main.go:276 | the slugs of the group and the item joined by `_`, followed by `_events.ics`; `ItemFileNameClean` states its shape |
| IcsFiles.Plan | main.go:247-304 | the files written when no write fails, in order; `PlanOfNoEvents`, `PlanEndsWithAll`, `PlanSound`, `PlanHasGroupFile`, `PlanHasItemFile` and `PlanFileNames` state what it holds |
| IcsFiles.SlugShape | main.go:260 | a slug is as long as its text and has no space or upper-case ASCII letter: each space becomes `_`, each upper-case ASCII letter moves down by 32 to its lower-case form, and every other character stays |
| IcsFiles.SlugIdempotent | main.go:276 | slugging a slug changes nothing |
| IcsFiles.SlugFixedPoints | main.go:260 | a text is its own slug if and only if it has no space and no upper-case ASCII letter |
| IcsFiles.SlugCollision | main.go:276 | different names ("Day Of", "day_of") can share a slug, and so a file |
| IcsFiles.GenerateICSFiles | main.go:247-304 | the files written are a prefix of the plan, each rendered from its planned file, none of them a failed write; success means the whole plan was written; a failure means the next write failed |
| IcsFiles.WriteGroupsFiles | main.go:255-288 | the loop over the groups writes their files in order, or stops at the first failed write with a strict prefix of them written |
| IcsFiles.WriteGroupFiles | main.go:256-287 | one group: its own file, then its items' files, or a strict prefix of them when a write fails |
| IcsFiles.WriteGroupFile | main.go:256-270 | the group's file is written when the group has events, and the step fails exactly when that write fails |
| IcsFiles.WriteItemFiles | main.go:272-287 | the loop over a group's items writes their files in order, or stops at the first failed write |
| IcsFiles.WriteItemFile | main.go:273-286 | an item's file is written when the item has events, and the step fails exactly when that write fails |
| IcsFiles.WriteFile | main.go:259-269 | one write succeeds exactly when it does not fail, and then adds the rendered calendar of the planned file; a failed write adds nothing |
| IcsFiles.PlanOfNoEvents | main.go:248-251 | with no events no file is planned |
| IcsFiles.PlanEndsWithAll | main.go:290-301 | with events, the last planned file is `all_events.ics` titled "All Events" with every event |
| IcsFiles.ItemFilesSound | main.go:272-287 | every planned item file has events and is the file of one of the group's items |
| IcsFiles.GroupsFilesSound | main.go:255-288 | every planned group or item file has events and is the file of one configured group or of one group's item |
| IcsFiles.PlanSound | main.go:247-304 | every planned file has events and is a group file, an item file or the file of all events |
| IcsFiles.ItemFilesComplete | main.go:272-287 | an item with events gets its file |
| IcsFiles.GroupsFilesContain | main.go:255-288 | every file planned for one group is part of the plan over all groups |
| IcsFiles.PlanHasGroupFile | main.go:255-270 | with events, every group whose group filter is non-empty gets its file |
| IcsFiles.PlanHasItemFile | main.go:272-287 | with events, every item with events gets a file under each group that lists it |
| IcsFiles.GroupFileNameClean | main.go:260 | a group file name ends in `_events.ics` and has no space or upper-case ASCII letter |
| IcsFiles.ItemFileNameClean | main.go:276 | an item file name ends in `_events.ics` and has no space or upper-case ASCII letter |
| IcsFiles.ItemFilesNames | main.go:272-287 | every item file name of a group is clean |
| IcsFiles.GroupsFilesNames | main.go:255-288 | every group and item file name is clean |
| IcsFiles.PlanFileNames | main.go:255-301 | every planned file name is clean |
| Pipeline.GetAIProvider | main.go:115-130 | a provider is found exactly for "openai" and "claude", keeps the key and model, and is the OpenAI one exactly for "openai"; any other name gives the error `unsupported AI provider: <name>` |
| Pipeline.ProviderNamesAreCaseSensitive | main.go:116-128 | "OpenAI", "Claude" and the empty name are all unsupported |
| Pipeline.Prompt | main.go:179-180 | the `Sprintf` of the item name and additional information; `PromptLayout`, `PromptDeterminesText` and `PromptIgnoresAuthority` state its layout |
| Pipeline.PromptLayout | main.go:179-180 | the prompt is the fixed head, the item name, the fixed middle, the additional information and the fixed tail, at those positions |
| Pipeline.PromptDeterminesText | main.go:179-180 | two items with names of equal length share a prompt only if their names and additional information agree |
| Pipeline.PromptIgnoresAuthority | main.go:179-180 | the authority URL does not enter the prompt |
| Pipeline.ItemQuery | main.go:178-199 | what `queryAI` returns: the query error with its message, or the parsed events of the reply; `ItemQueryMeaning` states its meaning |
| Pipeline.QueryAI | main.go:178-199 | `queryAI` gives the parsed events of the reply, or `AI query error for <item>: <message>` when the query fails |
| Pipeline.ItemQueryMeaning | main.go:184-198 | `queryAI` fails exactly when the query does; on success every event carries the item's name and an empty group |
| Pipeline.Disabled | main.go:379 | `strings.ToLower(disableAI) == "true"`; `DisabledSpellings` gives the accepted and refused spellings |
| Pipeline.DisabledSpellings | main.go:379 | `DISABLE_AI` is matched case-insensitively with "true" ("TRUE", "True"), but "", "1" and " true" do not disable |
| Pipeline.ItemContribution | main.go:392-404 | what one item adds to `allEvents`: nothing when its query fails, or else its events tagged with the group; `ItemContributionTagged` and `FailedItemSkipped` state its meaning |
| Pipeline.ItemsEvents | main.go:390-405 | what a group's items add, item after item; `ItemsEventsTagged` and `FailedItemSkipped` state its meaning |
| Pipeline.GroupEvents | main.go:379-405 | what one group adds: nothing when AI is disabled or the provider is unknown, otherwise its items' events; `GroupEventsTagged` and `FilterOwnGroup` state its meaning |
| Pipeline.AllEvents | main.go:374-406 | `allEvents` after the loop, group after group; `AllEventsTagged`, `DisabledGathersNothing`, `UnsupportedGroupSkipped`, `FilterOtherGroups` and `GroupFilterRecoversGroup` state its meaning |
| Pipeline.TagGroup | main.go:400-402 | the in-place loop overwrites every event's group and changes nothing else |
| Pipeline.CollectEvents | main.go:374-406 | the loop gathers, in group order, what each group contributes |
| Pipeline.CollectGroupEvents | main.go:390-405 | the loop over one group's items gathers, in item order, what each item contributes |
| Pipeline.CollectItemEvents | main.go:392-404 | one item contributes its parsed events tagged with the group, or nothing when its query fails |
| Pipeline.Run | main.go:362-423 | `main` gathers exactly those events, writes a prefix of their file plan, and renders the HTML page exactly when the whole plan was written |
| Pipeline.DisabledGathersNothing | main.go:379-382 | with AI disabled no events are gathered |
| Pipeline.UnsupportedGroupSkipped | main.go:384-388 | a group with an unknown provider can be removed without changing the gathered events |
| Pipeline.FailedItemSkipped | main.go:392-396 | an item whose query fails can be removed without changing what its group gathers, so later items still count |
| Pipeline.ItemContributionTagged | main.go:392-402 | every event an item contributes carries the group's name and the item's name |
| Pipeline.ItemsEventsTagged | main.go:390-405 | every event a group's items contribute carries the group's name and one of its items' names |
| Pipeline.GroupEventsTagged | main.go:376-405 | every event a group contributes carries the group's name and the name of one of its items |
| Pipeline.AllEventsTagged | main.go:374-406 | every gathered event lies in the contribution of a group it was queried under, and carries that group's name and one of that group's item names |
| Pipeline.FilterOtherGroups | main.go:316-324 | filtering the gathered events by a name no group has keeps nothing |
| Pipeline.FilterOwnGroup | main.go:316-324 | filtering a group's events by its own name keeps them all |
| Pipeline.GroupFilterRecoversGroup | main.go:255-256 | when group names are distinct, the group filter over all gathered events is exactly that group's contribution |

## Left out

- `OpenAIProvider.Query` and `ClaudeProvider.Query` (main.go:34-113): HTTP, JSON and a third-party client. They are the `query` parameter.
- `loadGroupConfigs` (main.go:151-176): a directory scan and JSON decoding. The configurations are an input value.
- The iCalendar serialization (`SerializeTo`) and the creation, stamp and modification times (main.go:235-237): a foreign library and wall-clock values. Entries are abstract records.
- `generateHTMLCalendar` (main.go:326-360): template parsing and rendering. `Run` only states whether it is called, and with the events gathered.
- `os.Create`, `file.Close`, and the `docs` directory: a failed create and a failed serialize are merged into one failed write, `fails(n)` for the n-th write. Names are relative to `docs`.
- Replies are a function of the provider and the prompt. Every `queryAI` call in `main.go` is a fresh request, and every group gets the same key and model (main.go:363-364, 384). So an item listed twice, or the same item under two groups with the same provider, always gets the same reply in the model. The real program can get one failure and one answer, or two different answers.
- The files in `docs`: `written` is the history of writes, not the directory's final contents. When two planned files share a name (`SlugCollision`, or a group file `a_b` and the item file of group `a` and item `b`), a later `os.Create` truncates the earlier file. The model does not state which contents survive. A write whose `SerializeTo` fails (main.go:265-268, 281-284, 296-299) has already created its file, so an empty or partial file is left in `docs`; the model's failed write adds nothing to `written`.
- Reading the environment variables, and all `fmt.Printf` logging: the variables are the value `Env`, and logging has no effect on the results.
- GoStrings.ToLower: lower-cases only ASCII letters, whereas Go's `strings.ToLower` also maps non-ASCII letters. Slugs and the `DISABLE_AI` test are modelled for ASCII.
- Strings are sequences of characters, not Go's UTF-8 bytes. Splitting on the ASCII separators `"\n"` and `": "` gives the same pieces either way.
- `time.Time` internals and time zones: a parsed date is a UTC midnight, so a date is a year, month and day, and adding 24 hours is the next calendar day. Years are 0 to 9999, the range a four-digit layout accepts.
- Dates.ParseDate: states the accepted texts through `FormatDate` with the other direction in `ParseFormat`. It does not reproduce the text of Go's parse error, which `parseEvents` only logs.
- `generateICSFiles` returns the first write error. The model keeps only whether some write failed, and which one, not the error's text.
