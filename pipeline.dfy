/**
 * The orchestration of main.go: choosing a text-generation backend per group
 * (`getAIProvider`), the prompt and query for one item (`queryAI`), the loop of
 * `main` that gathers every item's events tagged with their group, and `main`
 * itself, which hands the gathered events to `generateICSFiles`.
 *
 * The backends' network calls are not modelled: `query(provider, prompt)` stands
 * for whatever `provider.Query(prompt)` answers.
 */
module Pipeline {
  import opened Wrappers
  import opened GoStrings
  import opened Domain
  import opened Parser
  import opened Filters
  import opened IcsFiles

  /** The two backends, each with the key and model read from the environment. */
  datatype Provider = OpenAI(apiKey: string, model: string) | Claude(apiKey: string, model: string)

  /** What `Query` gives back: the reply text, or an error with its message. */
  datatype Reply = Answer(text: string) | QueryError(message: string)

  /** `getAIProvider`: the provider name is matched exactly, without case folding. */
  function GetAIProvider(name: string, apiKey: string, model: string): (r: Result<Provider>)
    ensures r.Success? <==> name == "openai" || name == "claude"
    ensures r.Success? ==> r.value.apiKey == apiKey && r.value.model == model
    ensures r.Success? ==> (r.value.OpenAI? <==> name == "openai")
    ensures r.Failure? ==> r.error == "unsupported AI provider: " + name
  {
    if name == "openai" then Success(OpenAI(apiKey, model))
    else if name == "claude" then Success(Claude(apiKey, model))
    else Failure("unsupported AI provider: " + name)
  }

  lemma ProviderNamesAreCaseSensitive()
    ensures GetAIProvider("OpenAI", "", "").Failure?
    ensures GetAIProvider("Claude", "", "").Failure?
    ensures GetAIProvider("", "", "").Failure?
  {
  }

  // The prompt of `queryAI`.

  const PromptHead: string := "Please provide a list of events for "
  const PromptMiddle: string := " for the current year. Use your knowledge base and ensure cultural accuracy. "
  const PromptTail: string := " Format each event as 'Event Name: YYYY-MM-DD'."

  /** The prompt for one item: its name and its additional information inside a fixed text. */
  function Prompt(item: CalendarItem): (p: string)
  {
    PromptHead + item.name + PromptMiddle + item.additionalInfo + PromptTail
  }

  /** Where the item's name and additional information sit inside the prompt. */
  lemma PromptLayout(item: CalendarItem)
    ensures var p, n, i := Prompt(item), |item.name|, |item.additionalInfo|;
      |p| == |PromptHead| + n + |PromptMiddle| + i + |PromptTail| &&
      p[..|PromptHead|] == PromptHead &&
      p[|PromptHead|..|PromptHead| + n] == item.name &&
      p[|PromptHead| + n..|PromptHead| + n + |PromptMiddle|] == PromptMiddle &&
      p[|PromptHead| + n + |PromptMiddle|..|p| - |PromptTail|] == item.additionalInfo &&
      p[|p| - |PromptTail|..] == PromptTail
  {
  }

  /** Two items whose names have the same length get the same prompt only if their texts agree. */
  lemma PromptDeterminesText(a: CalendarItem, b: CalendarItem)
    requires Prompt(a) == Prompt(b) && |a.name| == |b.name|
    ensures a.name == b.name && a.additionalInfo == b.additionalInfo
  {
    PromptLayout(a);
    PromptLayout(b);
  }

  /** The authority URL does not enter the prompt. */
  lemma PromptIgnoresAuthority(item: CalendarItem, url: string)
    ensures Prompt(item.(authorityUrl := url)) == Prompt(item)
  {
  }

  // `queryAI`.

  /** What `queryAI(item, ai)` returns. */
  ghost function ItemQuery(item: CalendarItem, ai: Provider, query: (Provider, string) -> Reply): Result<seq<Event>>
  {
    match query(ai, Prompt(item))
    case QueryError(message) => Failure("AI query error for " + item.name + ": " + message)
    case Answer(text) => Success(ParsedEvents(text, item.name))
  }

  method QueryAI(item: CalendarItem, ai: Provider, query: (Provider, string) -> Reply) returns (r: Result<seq<Event>>)
    ensures r == ItemQuery(item, ai, query)
  {
    var prompt := Prompt(item);
    var reply := query(ai, prompt);
    if reply.QueryError? {
      return Failure("AI query error for " + item.name + ": " + reply.message);
    }
    var parsed := ParseEvents(reply.text, item.name);
    match parsed {
      case Failure(message) =>
        // `parseEvents` never reports an error, so this branch of `queryAI` is dead.
        assert false;
        r := Failure("Error parsing events for " + item.name + ": " + message);
      case Success(events) =>
        r := Success(events);
    }
  }

  /** `queryAI` fails exactly when the query does; on success every event belongs to the item. */
  lemma ItemQueryMeaning(item: CalendarItem, ai: Provider, query: (Provider, string) -> Reply)
    ensures ItemQuery(item, ai, query).Failure? <==> query(ai, Prompt(item)).QueryError?
    ensures ItemQuery(item, ai, query).Success? ==>
      forall i :: 0 <= i < |ItemQuery(item, ai, query).value| ==>
        ItemQuery(item, ai, query).value[i].item == item.name && ItemQuery(item, ai, query).value[i].group == ""
  {
    if query(ai, Prompt(item)).Answer? {
      var text := query(ai, Prompt(item)).text;
      EventsOfLinesOrigin(Split(text, "\n"), item.name);
      var evs := ParsedEvents(text, item.name);
      forall i | 0 <= i < |evs|
        ensures evs[i].item == item.name && evs[i].group == ""
      {
        assert evs[i] in evs;
      }
    }
  }

  // The loop of `main`.

  /** The environment variables `main` reads. */
  datatype Env = Env(apiKey: string, model: string, disableAI: string)

  /** `strings.ToLower(disableAI) == "true"`. */
  predicate Disabled(env: Env)
  {
    ToLower(env.disableAI) == "true"
  }

  lemma DisabledSpellings()
    ensures Disabled(Env("", "", "true")) && Disabled(Env("", "", "TRUE")) && Disabled(Env("", "", "True"))
    ensures !Disabled(Env("", "", "")) && !Disabled(Env("", "", "1")) && !Disabled(Env("", "", " true"))
  {
    assert ToLower("TRUE") == "true";
    assert ToLower("True") == "true";
    assert |ToLower(" true")| == 5;
  }

  /** What one item adds to `allEvents`: its events tagged with the group, or nothing when its query fails. */
  ghost function ItemContribution(item: CalendarItem, group: string, ai: Provider, query: (Provider, string) -> Reply): seq<Event>
  {
    match ItemQuery(item, ai, query)
    case Failure(_) => []
    case Success(events) => Retag(events, group)
  }

  /** `ItemContribution` for every item of one group. */
  ghost function ContributionOf(group: string, ai: Provider, query: (Provider, string) -> Reply): CalendarItem -> seq<Event>
  {
    item => ItemContribution(item, group, ai, query)
  }

  /** What the items of one group add, item after item. */
  ghost function ItemsEvents(items: seq<CalendarItem>, group: string, ai: Provider, query: (Provider, string) -> Reply): seq<Event>
  {
    Flatten(items, ContributionOf(group, ai, query))
  }

  /** What one group adds: nothing when AI is disabled or its provider is unknown. */
  ghost function GroupEvents(g: GroupConfig, env: Env, query: (Provider, string) -> Reply): seq<Event>
  {
    if Disabled(env) then []
    else match GetAIProvider(g.aiProvider, env.apiKey, env.model)
      case Failure(_) => []
      case Success(ai) => ItemsEvents(g.calendarItems, g.groupName, ai, query)
  }

  ghost function GroupEventsOf(env: Env, query: (Provider, string) -> Reply): GroupConfig -> seq<Event>
  {
    g => GroupEvents(g, env, query)
  }

  /** `allEvents` after the loop of `main`: what the groups add, group after group. */
  ghost function AllEvents(configs: seq<GroupConfig>, env: Env, query: (Provider, string) -> Reply): seq<Event>
  {
    Flatten(configs, GroupEventsOf(env, query))
  }

  /** The concatenation of `f(x)` for the elements `x` of `xs`, in order. */
  ghost function Flatten<T>(xs: seq<T>, f: T -> seq<Event>): seq<Event>
  {
    if |xs| == 0 then [] else Flatten(xs[..|xs| - 1], f) + f(xs[|xs| - 1])
  }

  lemma {:induction false} FlattenAppend<T>(a: seq<T>, b: seq<T>, f: T -> seq<Event>)
    decreases |b|
    ensures Flatten(a + b, f) == Flatten(a, f) + Flatten(b, f)
  {
    if |b| > 0 {
      var b' := b[..|b| - 1];
      assert (a + b)[..|a + b| - 1] == a + b';
      FlattenAppend(a, b', f);
    } else {
      assert a + b == a;
    }
  }

  /** `Flatten` around one element `k`: the part before it, then its own part and the part after it. */
  lemma FlattenAround<T>(xs: seq<T>, f: T -> seq<Event>, k: nat)
    requires k < |xs|
    ensures Flatten(xs, f) == Flatten(xs[..k], f) + (f(xs[k]) + Flatten(xs[k + 1..], f))
  {
    SplitAt(xs, k);
    FlattenAppend(xs[..k], [xs[k]] + xs[k + 1..], f);
    FlattenCons(xs[k], xs[k + 1..], f);
  }

  lemma SplitAt<T>(xs: seq<T>, k: nat)
    requires k < |xs|
    ensures xs == xs[..k] + ([xs[k]] + xs[k + 1..])
  {
  }

  lemma FlattenCons<T>(x: T, b: seq<T>, f: T -> seq<Event>)
    ensures Flatten([x] + b, f) == f(x) + Flatten(b, f)
  {
    FlattenAppend([x], b, f);
    FlattenSingle(x, f);
  }

  lemma FlattenSingle<T>(x: T, f: T -> seq<Event>)
    ensures Flatten([x], f) == f(x)
  {
    assert [x][..0] == [];
  }

  /** An element that adds nothing can be removed. */
  lemma FlattenSkip<T>(xs: seq<T>, f: T -> seq<Event>, k: nat)
    requires k < |xs| && f(xs[k]) == []
    ensures Flatten(xs, f) == Flatten(xs[..k] + xs[k + 1..], f)
  {
    FlattenAround(xs, f, k);
    FlattenAppend(xs[..k], xs[k + 1..], f);
  }

  /** `e` is one of the elements `f` gives for some element of `xs`. */
  ghost predicate ComesFrom<T>(e: Event, xs: seq<T>, f: T -> seq<Event>)
  {
    exists j, m :: 0 <= j < |xs| && 0 <= m < |f(xs[j])| && e == f(xs[j])[m]
  }

  /** Every element of `Flatten(xs, f)` comes from `f(x)` for some element `x` of `xs`. */
  lemma {:induction false} FlattenOrigin<T>(xs: seq<T>, f: T -> seq<Event>)
    ensures forall i :: 0 <= i < |Flatten(xs, f)| ==> ComesFrom(Flatten(xs, f)[i], xs, f)
  {
    if |xs| > 0 {
      var init := xs[..|xs| - 1];
      FlattenOrigin(init, f);
      var head: seq<Event>, tail: seq<Event> := Flatten(init, f), f(xs[|xs| - 1]);
      assert Flatten(xs, f) == head + tail;
      forall i | 0 <= i < |head + tail|
        ensures ComesFrom((head + tail)[i], xs, f)
      {
        if i < |head| {
          var j, m :| 0 <= j < |init| && 0 <= m < |f(init[j])| && head[i] == f(init[j])[m];
          assert xs[j] == init[j];
          assert (head + tail)[i] == f(xs[j])[m];
        } else {
          assert (head + tail)[i] == f(xs[|xs| - 1])[i - |head|];
        }
      }
    }
  }

  /** `for i := range events { events[i].Group = groupName }`. */
  method TagGroup(a: array<Event>, group: string)
    modifies a
    ensures a[..] == Retag(old(a[..]), group)
  {
    for i := 0 to a.Length
      invariant forall k :: 0 <= k < i ==> a[k] == old(a[k]).(group := group)
      invariant forall k :: i <= k < a.Length ==> a[k] == old(a[k])
    {
      a[i] := a[i].(group := group);
    }
  }

  /** The loop of `main` that gathers the events of every group and item. */
  method CollectEvents(configs: seq<GroupConfig>, env: Env, query: (Provider, string) -> Reply) returns (allEvents: seq<Event>)
    ensures allEvents == AllEvents(configs, env, query)
  {
    allEvents := [];
    for gi := 0 to |configs|
      invariant allEvents == AllEvents(configs[..gi], env, query)
    {
      assert configs[..gi + 1][..gi] == configs[..gi];
      var g := configs[gi];
      if ToLower(env.disableAI) == "true" {
        continue;
      }
      var provider := GetAIProvider(g.aiProvider, env.apiKey, env.model);
      if provider.Failure? {
        continue;
      }
      var groupEvents := CollectGroupEvents(g, provider.value, query);
      allEvents := allEvents + groupEvents;
    }
    assert configs[..|configs|] == configs;
  }

  /** The inner loop of `main`, over the items of one group with a known provider. */
  method CollectGroupEvents(g: GroupConfig, ai: Provider, query: (Provider, string) -> Reply) returns (events: seq<Event>)
    ensures events == ItemsEvents(g.calendarItems, g.groupName, ai, query)
  {
    var items := g.calendarItems;
    events := [];
    for ii := 0 to |items|
      invariant events == ItemsEvents(items[..ii], g.groupName, ai, query)
    {
      assert items[..ii + 1][..ii] == items[..ii];
      var found := CollectItemEvents(items[ii], g.groupName, ai, query);
      events := events + found;
    }
    assert items[..|items|] == items;
  }

  /** The body of that loop: query one item and tag what it yields with the group's name. */
  method CollectItemEvents(item: CalendarItem, group: string, ai: Provider, query: (Provider, string) -> Reply) returns (events: seq<Event>)
    ensures events == ItemContribution(item, group, ai, query)
  {
    var r := QueryAI(item, ai, query);
    if r.Failure? {
      return [];
    }
    var found := r.value;
    var tagged := new Event[|found|](i requires 0 <= i < |found| => found[i]);
    assert tagged[..] == found;
    TagGroup(tagged, group);
    events := tagged[..];
  }

  /**
   * `main` after the configurations are loaded: gather the events, then write the
   * calendar files. `renderHtml` says whether `main` goes on to `generateHTMLCalendar`,
   * which it does only when every calendar file was written.
   */
  method Run(configs: seq<GroupConfig>, env: Env, query: (Provider, string) -> Reply, fails: nat -> bool)
    returns (allEvents: seq<Event>, written: seq<WrittenFile>, renderHtml: bool)
    ensures allEvents == AllEvents(configs, env, query)
    ensures |written| <= |Plan(allEvents, configs)|
    ensures written == RenderAll(Plan(allEvents, configs)[..|written|])
    ensures renderHtml <==> |written| == |Plan(allEvents, configs)|
    ensures !renderHtml ==> fails(|written|)
  {
    allEvents := CollectEvents(configs, env, query);
    var ok;
    written, ok := GenerateICSFiles(allEvents, configs, fails);
    renderHtml := ok;
  }

  // Properties of the gathered events.

  /** With AI disabled no group contributes anything. */
  lemma {:induction false} DisabledGathersNothing(configs: seq<GroupConfig>, env: Env, query: (Provider, string) -> Reply)
    requires Disabled(env)
    ensures AllEvents(configs, env, query) == []
  {
    if |configs| > 0 {
      DisabledGathersNothing(configs[..|configs| - 1], env, query);
      assert GroupEventsOf(env, query)(configs[|configs| - 1]) == [];
    }
  }

  /** A group whose provider name is unknown can be removed without changing `allEvents`. */
  lemma UnsupportedGroupSkipped(configs: seq<GroupConfig>, env: Env, query: (Provider, string) -> Reply, j: nat)
    requires j < |configs|
    requires GetAIProvider(configs[j].aiProvider, env.apiKey, env.model).Failure?
    ensures AllEvents(configs, env, query) == AllEvents(configs[..j] + configs[j + 1..], env, query)
  {
    assert GroupEventsOf(env, query)(configs[j]) == [];
    FlattenSkip(configs, GroupEventsOf(env, query), j);
  }

  /** An item whose query fails can be removed without changing what its group gathers: later items still count. */
  lemma FailedItemSkipped(items: seq<CalendarItem>, group: string, ai: Provider, query: (Provider, string) -> Reply, k: nat)
    requires k < |items|
    requires ItemQuery(items[k], ai, query).Failure?
    ensures ItemsEvents(items, group, ai, query) == ItemsEvents(items[..k] + items[k + 1..], group, ai, query)
  {
    assert ContributionOf(group, ai, query)(items[k]) == [];
    FlattenSkip(items, ContributionOf(group, ai, query), k);
  }

  /** Every event an item contributes carries the group's name and the item's name. */
  lemma ItemContributionTagged(item: CalendarItem, group: string, ai: Provider, query: (Provider, string) -> Reply)
    ensures forall i :: 0 <= i < |ItemContribution(item, group, ai, query)| ==>
      ItemContribution(item, group, ai, query)[i].group == group && ItemContribution(item, group, ai, query)[i].item == item.name
  {
    ItemQueryMeaning(item, ai, query);
    if ItemQuery(item, ai, query).Success? {
      RetagMeaning(ItemQuery(item, ai, query).value, group);
    }
  }

  /** Every event of a group carries the group's name and the name of one of its items. */
  lemma ItemsEventsTagged(items: seq<CalendarItem>, group: string, ai: Provider, query: (Provider, string) -> Reply)
    ensures forall i :: 0 <= i < |ItemsEvents(items, group, ai, query)| ==>
      ItemsEvents(items, group, ai, query)[i].group == group &&
      exists k :: 0 <= k < |items| && ItemsEvents(items, group, ai, query)[i].item == items[k].name
  {
    var f := ContributionOf(group, ai, query);
    var evs := ItemsEvents(items, group, ai, query);
    FlattenOrigin(items, f);
    assert evs == Flatten(items, f);
    forall i | 0 <= i < |evs|
      ensures evs[i].group == group && exists k :: 0 <= k < |items| && evs[i].item == items[k].name
    {
      assert ComesFrom(evs[i], items, f);
      var k, m :| 0 <= k < |items| && 0 <= m < |f(items[k])| && evs[i] == f(items[k])[m];
      ItemContributionTagged(items[k], group, ai, query);
    }
  }

  lemma GroupEventsTagged(g: GroupConfig, env: Env, query: (Provider, string) -> Reply)
    ensures forall i :: 0 <= i < |GroupEvents(g, env, query)| ==> TaggedBy(GroupEvents(g, env, query)[i], g)
  {
    var evs := GroupEvents(g, env, query);
    if !Disabled(env) && GetAIProvider(g.aiProvider, env.apiKey, env.model).Success? {
      var ai := GetAIProvider(g.aiProvider, env.apiKey, env.model).value;
      var items := ItemsEvents(g.calendarItems, g.groupName, ai, query);
      assert evs == items;
      ItemsEventsTagged(g.calendarItems, g.groupName, ai, query);
      forall i | 0 <= i < |evs|
        ensures TaggedBy(evs[i], g)
      {
        assert items[i].group == g.groupName;
      }
    } else {
      assert evs == [];
    }
  }

  /** `e` was gathered for group `g`: it carries the group's name and the name of one of its items. */
  ghost predicate TaggedBy(e: Event, g: GroupConfig)
  {
    e.group == g.groupName && exists k :: 0 <= k < |g.calendarItems| && e.item == g.calendarItems[k].name
  }

  /** Every event lies in the contribution of one of the groups and is tagged by that group. */
  ghost predicate AllTagged(events: seq<Event>, configs: seq<GroupConfig>, env: Env, query: (Provider, string) -> Reply)
  {
    forall i :: 0 <= i < |events| ==>
      exists j :: 0 <= j < |configs| && events[i] in GroupEvents(configs[j], env, query) && TaggedBy(events[i], configs[j])
  }

  /**
   * Every gathered event lies in what the group it was queried under contributed, and carries
   * that group's name and the name of one of that group's items.
   */
  lemma AllEventsTagged(configs: seq<GroupConfig>, env: Env, query: (Provider, string) -> Reply)
    ensures AllTagged(AllEvents(configs, env, query), configs, env, query)
  {
    var f := GroupEventsOf(env, query);
    var evs := AllEvents(configs, env, query);
    FlattenOrigin(configs, f);
    assert evs == Flatten(configs, f);
    forall i | 0 <= i < |evs|
      ensures exists j :: 0 <= j < |configs| && evs[i] in GroupEvents(configs[j], env, query) && TaggedBy(evs[i], configs[j])
    {
      assert ComesFrom(evs[i], configs, f);
      var j, m :| 0 <= j < |configs| && 0 <= m < |f(configs[j])| && evs[i] == f(configs[j])[m];
      var own := GroupEvents(configs[j], env, query);
      assert f(configs[j]) == own;
      GroupEventsTagged(configs[j], env, query);
      assert evs[i] in own && TaggedBy(evs[i], configs[j]);
    }
  }

  /** Filtering by a name no group carries keeps nothing. */
  lemma FilterOtherGroups(configs: seq<GroupConfig>, env: Env, query: (Provider, string) -> Reply, key: string)
    requires forall j :: 0 <= j < |configs| ==> configs[j].groupName != key
    ensures Filter(AllEvents(configs, env, query), GroupField, key) == []
  {
    var evs := AllEvents(configs, env, query);
    AllEventsTagged(configs, env, query);
    forall i | 0 <= i < |evs|
      ensures FieldOf(evs[i], GroupField) != key
    {
      var j :| 0 <= j < |configs| && evs[i] in GroupEvents(configs[j], env, query) && TaggedBy(evs[i], configs[j]);
    }
    FilterOfNonMatching(evs, GroupField, key);
  }

  /** Filtering a group's events by its own name keeps them all. */
  lemma FilterOwnGroup(g: GroupConfig, env: Env, query: (Provider, string) -> Reply)
    ensures Filter(GroupEvents(g, env, query), GroupField, g.groupName) == GroupEvents(g, env, query)
  {
    GroupEventsTagged(g, env, query);
    FilterOfMatching(GroupEvents(g, env, query), GroupField, g.groupName);
  }

  /** When group names are distinct, filtering the gathered events by a group's name gives exactly that group's events. */
  lemma GroupFilterRecoversGroup(configs: seq<GroupConfig>, env: Env, query: (Provider, string) -> Reply, j: nat)
    requires j < |configs|
    requires forall a, b :: 0 <= a < b < |configs| ==> configs[a].groupName != configs[b].groupName
    ensures Filter(AllEvents(configs, env, query), GroupField, configs[j].groupName) == GroupEvents(configs[j], env, query)
  {
    var key := configs[j].groupName;
    FlattenAround(configs, GroupEventsOf(env, query), j);
    var before, mid, after := AllEvents(configs[..j], env, query), GroupEvents(configs[j], env, query), AllEvents(configs[j + 1..], env, query);
    assert AllEvents(configs, env, query) == before + (mid + after);
    FilterAppend(before, mid + after, GroupField, key);
    FilterAppend(mid, after, GroupField, key);
    assert forall a :: 0 <= a < j ==> configs[..j][a] == configs[a];
    FilterOtherGroups(configs[..j], env, query, key);
    assert forall a :: j + 1 <= a < |configs| ==> configs[j + 1..][a - j - 1] == configs[a];
    FilterOtherGroups(configs[j + 1..], env, query, key);
    FilterOwnGroup(configs[j], env, query);
  }
}
