/** Registration of one agent in the shared openclaw.json, and its inverse: what the merge script and
    the de-registration script of the AgentWorkstation controller compute, as functions of the document. */
module AgentMerge {
  import opened Values
  import opened OpenClawConfig
  import opened StableSort

  /** What one AgentWorkstation contributes. `channel` is "" without a Discord channel. */
  datatype AgentSpec = AgentSpec(
    id: string,
    displayName: string,
    emoji: string,
    model: string,
    profile: string,
    channel: string,
    declaredTools: seq<string>,
    searchProvider: string)
  {
    function Label(): string { if displayName == "" then id else displayName }

    function Entry(): Block {
      map["id" := Str(id), "name" := Str(Label()), "workspace" := Str("/home/node/.openclaw/workspaces/" + id),
          "model" := Obj(map["primary" := Str(model)])]
      + if emoji != "" || displayName != ""
        then map["identity" := Obj(map["name" := Str(Label()), "emoji" := Str(emoji)])]
        else map[]
    }

    function Match(): Json {
      Obj(map["channel" := Str("discord"), "accountId" := Str("default"),
              "peer" := Obj(map["kind" := Str("channel"), "id" := Str(channel)])])
    }

    function Binding(): Json { Obj(map["agentId" := Str(id), "match" := Match()]) }

    function Bindings(): seq<Json> { if channel == "" then [] else [Binding()] }
  }

  /** The order of String.localeCompare, as a rank: a collation is a total preorder on strings. */
  type Collation = string -> real

  // ----- agents.list -----

  predicate HasId(a: Json, id: string) { Truthy(a) && Get(a, "id") == Str(id) }

  function Overlay(a: Json, entry: Block): Json { Obj((if a.Obj? then a.fields else map[]) + entry) }

  /** The first element with the agent's id is overlaid with its entry; without one the entry is appended. */
  function MergeEntry(list: seq<Json>, id: string, entry: Block): seq<Json> {
    if |list| == 0 then [Obj(entry)]
    else if HasId(list[0], id) then [Overlay(list[0], entry)] + list[1..]
    else [list[0]] + MergeEntry(list[1..], id, entry)
  }

  lemma {:induction false} MergeEntryAt(list: seq<Json>, id: string, entry: Block, i: nat)
    requires i <= |list|
    requires forall k :: 0 <= k < i ==> !HasId(list[k], id)
    requires i < |list| ==> HasId(list[i], id)
    ensures MergeEntry(list, id, entry)
         == if i == |list| then list + [Obj(entry)] else list[i := Overlay(list[i], entry)]
  {
    if i > 0 {
      MergeEntryAt(list[1..], id, entry, i - 1);
    }
  }

  lemma {:induction false} MergeEntryTwice(list: seq<Json>, id: string, entry: Block)
    requires HasId(Obj(entry), id)
    ensures MergeEntry(MergeEntry(list, id, entry), id, entry) == MergeEntry(list, id, entry)
  {
    if |list| == 0 {
      assert Overlay(Obj(entry), entry) == Obj(entry);
    } else if HasId(list[0], id) {
      var o := Overlay(list[0], entry);
      assert Overlay(o, entry) == o;
    } else {
      MergeEntryTwice(list[1..], id, entry);
    }
  }

  /** Another agent's merge neither moves nor changes an entry that has settled. */
  lemma {:induction false} MergeEntryKeepsOther(list: seq<Json>, id: string, entry: Block, id': string, entry': Block)
    requires id != id' && HasId(Obj(entry'), id')
    requires MergeEntry(list, id, entry) == list
    ensures MergeEntry(MergeEntry(list, id', entry'), id, entry) == MergeEntry(list, id', entry')
  {
    if |list| > 0 {
      if HasId(list[0], id) {
        assert MergeEntry(list, id', entry')[0] == list[0];
      } else {
        assert MergeEntry(list, id, entry)[1..] == MergeEntry(list[1..], id, entry);
        MergeEntryKeepsOther(list[1..], id, entry, id', entry');
      }
    }
  }

  function KeepEntry(id: string): Json -> bool { a => !HasId(a, id) }

  lemma FilterCons(x: Json, list: seq<Json>, keep: Json -> bool)
    ensures Filter([x] + list, keep) == (if keep(x) then [x] else []) + Filter(list, keep)
  {
    FilterConcat([x], list, keep);
    FilterOne(x, keep);
  }

  lemma {:induction false} MergeEntryFilter(list: seq<Json>, id: string, entry: Block, gone: string)
    requires id != gone && HasId(Obj(entry), id)
    ensures MergeEntry(Filter(list, KeepEntry(gone)), id, entry) == Filter(MergeEntry(list, id, entry), KeepEntry(gone))
  {
    var keep := KeepEntry(gone);
    if |list| == 0 {
      FilterOne(Obj(entry), keep);
    } else {
      var head, tail := list[0], list[1..];
      assert list == [head] + tail;
      FilterCons(head, tail, keep);
      if HasId(head, id) {
        assert HasId(Overlay(head, entry), id);
        FilterCons(Overlay(head, entry), tail, keep);
        assert Filter(list, keep)[1..] == Filter(tail, keep);
      } else {
        FilterCons(head, MergeEntry(tail, id, entry), keep);
        MergeEntryFilter(tail, id, entry, gone);
        assert keep(head) ==> Filter(list, keep)[1..] == Filter(tail, keep);
        assert !keep(head) ==> Filter(list, keep) == Filter(tail, keep);
      }
    }
  }

  lemma EntryHasId(s: AgentSpec)
    ensures HasId(Obj(s.Entry()), s.id)
  {
    assert |"id"| == 2 && |"name"| == 4 && |"workspace"| == 9 && |"model"| == 5 && |"identity"| == 8;
  }

  // ----- allow lists -----

  function AppendMissing(list: seq<Json>, xs: seq<string>): (r: seq<Json>)
    ensures list <= r
    decreases xs
  {
    if |xs| == 0 then list
    else AppendMissing(if Str(xs[0]) in list then list else list + [Str(xs[0])], xs[1..])
  }

  lemma {:induction false} AppendMissingAdds(list: seq<Json>, xs: seq<string>)
    ensures forall x :: x in xs ==> Str(x) in AppendMissing(list, xs)
    decreases xs
  {
    if |xs| > 0 {
      var next := if Str(xs[0]) in list then list else list + [Str(xs[0])];
      AppendMissingAdds(next, xs[1..]);
      assert Str(xs[0]) in next;
      assert next <= AppendMissing(next, xs[1..]);
    }
  }

  lemma {:induction false} AppendMissingFixed(list: seq<Json>, xs: seq<string>)
    ensures AppendMissing(list, xs) == list <==> forall x :: x in xs ==> Str(x) in list
  {
    AppendMissingAdds(list, xs);
    if |xs| > 0 && Str(xs[0]) in list {
      AppendMissingFixed(list, xs[1..]);
      assert forall x :: x in xs ==> x == xs[0] || x in xs[1..];
    }
  }

  // ----- tools -----

  const ADDITIVE_TOOLS := {"browser", "canvas", "screen", "terminal"}

  function Additive(s: AgentSpec): seq<string> { Filter(s.declaredTools, t => t in ADDITIVE_TOOLS) }

  function AllowAdditive(t: Tools, s: AgentSpec): Tools {
    if |Additive(s)| == 0 then t
    else t.(allow := None, alsoAllow := Some(AppendMissing(t.alsoAllow.GetOr([]), Additive(s))))
  }

  function NeedSearch(t: Tools, s: AgentSpec): Tools {
    if "web_search" !in s.declaredTools then t
    else t.(webFetch := if Truthy(t.webFetch) then t.webFetch else Obj(map[]),
            searchProvider := if t.searchProvider == "" then s.searchProvider else t.searchProvider)
  }

  function NeedPlugin(plugins: Block, provider: string, s: AgentSpec): Block {
    if "web_search" in s.declaredTools && provider != "" && !(provider in plugins && Truthy(plugins[provider]))
    then plugins[provider := Obj(map["enabled" := Bool(true)])]
    else plugins
  }

  // ----- bindings -----

  /** A rule with no peer, guild or team that is not tied to one account. */
  predicate WideCatchAll(b: Json) {
    var m := Get(b, "match");
    || !Truthy(m)
    || (&& !(Truthy(Get(m, "peer")) && Truthy(Get(Get(m, "peer"), "id")))
        && !Truthy(Get(m, "guildId"))
        && !Truthy(Get(m, "teamId"))
        && (!Truthy(Get(m, "accountId")) || Get(m, "accountId") == Str("*")))
  }

  function KeepBinding(id: string): Json -> bool { b => Get(b, "agentId") != Str(id) && !WideCatchAll(b) }

  function KeyPart(j: Json): string { if j.Str? then j.s else "" }

  function BindingRank(collate: Collation): Json -> real {
    b => collate(KeyPart(Get(b, "agentId")) + "\t" + KeyPart(Get(Get(Get(b, "match"), "peer"), "id")))
  }

  function MergeBindings(bindings: seq<Json>, s: AgentSpec, collate: Collation): seq<Json> {
    Replace(bindings, KeepBinding(s.id), s.Bindings(), BindingRank(collate))
  }

  /** Two agents whose bindings the collation cannot tell apart would push each other back and forth. */
  predicate Separated(s: AgentSpec, t: AgentSpec, collate: Collation) {
    s.channel == "" || t.channel == "" || BindingRank(collate)(s.Binding()) != BindingRank(collate)(t.Binding())
  }

  lemma BindingReads(s: AgentSpec)
    ensures Get(s.Binding(), "agentId") == Str(s.id)
    ensures s.channel != "" ==> !WideCatchAll(s.Binding())
  {
    var m := Get(s.Binding(), "match");
    assert "agentId" != "match";
    assert m == s.Match();
    assert |"channel"| == 7 && |"accountId"| == 9 && |"peer"| == 4;
    var peer := Get(m, "peer");
    assert Get(peer, "id") == Str(s.channel);
  }

  lemma FreshBindings(s: AgentSpec, id: string)
    ensures Filter(s.Bindings(), KeepBinding(id)) == if s.id == id then [] else s.Bindings()
  {
    if s.channel != "" {
      BindingReads(s);
      FilterOne(s.Binding(), KeepBinding(id));
    }
  }

  lemma MergeBindingsTwice(bindings: seq<Json>, s: AgentSpec, collate: Collation)
    ensures MergeBindings(MergeBindings(bindings, s, collate), s, collate) == MergeBindings(bindings, s, collate)
  {
    FreshBindings(s, s.id);
    ReplaceTwice(bindings, KeepBinding(s.id), s.Bindings(), BindingRank(collate));
  }

  /** The merged binding lists of two agents do not depend on which merged first. */
  lemma MergeBindingsCommute(bindings: seq<Json>, s: AgentSpec, t: AgentSpec, collate: Collation)
    requires s.id != t.id && Separated(s, t, collate)
    ensures MergeBindings(MergeBindings(bindings, s, collate), t, collate)
         == MergeBindings(MergeBindings(bindings, t, collate), s, collate)
  {
    FreshBindings(s, t.id);
    FreshBindings(t, s.id);
    ReplaceCommutes(bindings, KeepBinding(s.id), s.Bindings(), KeepBinding(t.id), t.Bindings(), BindingRank(collate));
  }

  // ----- the whole merge -----

  function MergeList(a: Agents, s: AgentSpec): Agents {
    a.(list := Some(MergeEntry(a.list.GetOr([]), s.id, s.Entry())))
  }

  function MergeProxy(p: BrowserProxy, s: AgentSpec): BrowserProxy {
    BrowserProxy(Some(Bool(true)), Some(AppendMissing(p.allowProfiles.GetOr([]), [s.profile])))
  }

  function MergeTools(t: Tools, s: AgentSpec): Tools { NeedSearch(AllowAdditive(t, s), s) }

  function Merge(c: Config, s: AgentSpec, collate: Collation): Config {
    c.(agents := MergeList(c.agents, s),
       browserProxy := MergeProxy(c.browserProxy, s),
       tools := MergeTools(c.tools, s),
       plugins := NeedPlugin(c.plugins, MergeTools(c.tools, s).searchProvider, s),
       bindings := Some(MergeBindings(c.bindings.GetOr([]), s, collate)))
  }

  /** Nothing left to write for this agent: the script would report NO_CHANGE. */
  ghost predicate Settled(c: Config, s: AgentSpec, collate: Collation) { Merge(c, s, collate) == c }

  lemma AppendMissingTwice(list: seq<Json>, xs: seq<string>)
    ensures AppendMissing(AppendMissing(list, xs), xs) == AppendMissing(list, xs)
  {
    AppendMissingAdds(list, xs);
    AppendMissingFixed(AppendMissing(list, xs), xs);
  }

  lemma AppendMissingKeepsOther(list: seq<Json>, xs: seq<string>, ys: seq<string>)
    requires AppendMissing(list, xs) == list
    ensures AppendMissing(AppendMissing(list, ys), xs) == AppendMissing(list, ys)
  {
    AppendMissingFixed(list, xs);
    AppendMissingFixed(AppendMissing(list, ys), xs);
    assert list <= AppendMissing(list, ys);
  }

  lemma MergeListTwice(a: Agents, s: AgentSpec)
    ensures MergeList(MergeList(a, s), s) == MergeList(a, s)
  {
    EntryHasId(s);
    MergeEntryTwice(a.list.GetOr([]), s.id, s.Entry());
  }

  lemma MergeListKeepsOther(a: Agents, s: AgentSpec, t: AgentSpec)
    requires s.id != t.id && MergeList(a, s) == a
    ensures MergeList(MergeList(a, t), s) == MergeList(a, t)
  {
    EntryHasId(t);
    MergeEntryKeepsOther(a.list.value, s.id, s.Entry(), t.id, t.Entry());
  }

  lemma MergeToolsTwice(t: Tools, s: AgentSpec)
    ensures MergeTools(MergeTools(t, s), s) == MergeTools(t, s)
  {
    AppendMissingTwice(t.alsoAllow.GetOr([]), Additive(s));
  }

  lemma MergeToolsKeepsOther(t: Tools, s: AgentSpec, o: AgentSpec)
    requires MergeTools(t, s) == t
    ensures MergeTools(MergeTools(t, o), s) == MergeTools(t, o)
  {
    if |Additive(s)| > 0 {
      AppendMissingKeepsOther(t.alsoAllow.value, Additive(s), Additive(o));
    }
  }

  lemma MergeProxyTwice(p: BrowserProxy, s: AgentSpec)
    ensures MergeProxy(MergeProxy(p, s), s) == MergeProxy(p, s)
  {
    AppendMissingTwice(p.allowProfiles.GetOr([]), [s.profile]);
  }

  lemma MergeProxyKeepsOther(p: BrowserProxy, s: AgentSpec, t: AgentSpec)
    requires MergeProxy(p, s) == p
    ensures MergeProxy(MergeProxy(p, t), s) == MergeProxy(p, t)
  {
    AppendMissingKeepsOther(p.allowProfiles.value, [s.profile], [t.profile]);
  }

  /** The document is settled for an agent when each of its parts is. */
  lemma SettledByParts(c: Config, s: AgentSpec, collate: Collation)
    ensures Settled(c, s, collate) <==>
            && MergeList(c.agents, s) == c.agents
            && MergeProxy(c.browserProxy, s) == c.browserProxy
            && MergeTools(c.tools, s) == c.tools
            && NeedPlugin(c.plugins, c.tools.searchProvider, s) == c.plugins
            && c.bindings.Some? && MergeBindings(c.bindings.value, s, collate) == c.bindings.value
  {
  }

  lemma NeedPluginTwice(t: Tools, plugins: Block, s: AgentSpec)
    ensures var t' := MergeTools(t, s);
            var plugins' := NeedPlugin(plugins, t'.searchProvider, s);
            NeedPlugin(plugins', t'.searchProvider, s) == plugins'
  {
  }

  /** A merge leaves its agent settled, whatever the document was. */
  lemma MergeSettles(c: Config, s: AgentSpec, collate: Collation)
    ensures Settled(Merge(c, s, collate), s, collate)
  {
    MergeListTwice(c.agents, s);
    MergeProxyTwice(c.browserProxy, s);
    MergeToolsTwice(c.tools, s);
    NeedPluginTwice(c.tools, c.plugins, s);
    MergeBindingsTwice(c.bindings.GetOr([]), s, collate);
    SettledByParts(Merge(c, s, collate), s, collate);
  }

  lemma NeedPluginKeepsOther(t: Tools, plugins: Block, s: AgentSpec, o: AgentSpec)
    requires MergeTools(t, s) == t && NeedPlugin(plugins, t.searchProvider, s) == plugins
    ensures var t' := MergeTools(t, o);
            var plugins' := NeedPlugin(plugins, t'.searchProvider, o);
            NeedPlugin(plugins', t'.searchProvider, s) == plugins'
  {
  }

  /** One agent's merge leaves every other settled agent settled. */
  lemma MergeKeepsSettled(c: Config, s: AgentSpec, t: AgentSpec, collate: Collation)
    requires s.id != t.id && Separated(s, t, collate)
    requires Settled(c, s, collate)
    ensures Settled(Merge(c, t, collate), s, collate)
  {
    SettledByParts(c, s, collate);
    MergeListKeepsOther(c.agents, s, t);
    MergeProxyKeepsOther(c.browserProxy, s, t);
    MergeToolsKeepsOther(c.tools, s, t);
    NeedPluginKeepsOther(c.tools, c.plugins, s, t);
    MergeBindingsCommute(c.bindings.value, s, t, collate);
    SettledByParts(Merge(c, t, collate), s, collate);
  }

  // ----- what a merge leaves, part by part -----

  /** The entry of the agent: what the merge writes into it, over whatever it held. */
  ghost predicate Entered(s: AgentSpec, before: Json, after: Json) {
    var name := if s.displayName == "" then s.id else s.displayName;
    && after.Obj?
    && Get(after, "id") == Str(s.id) && Get(after, "name") == Str(name)
    && Get(after, "workspace") == Str("/home/node/.openclaw/workspaces/" + s.id)
    && Get(Get(after, "model"), "primary") == Str(s.model)
    && (s.emoji != "" || s.displayName != "" ==>
          Get(Get(after, "identity"), "name") == Str(name) && Get(Get(after, "identity"), "emoji") == Str(s.emoji))
    && (s.emoji == "" && s.displayName == "" ==> Get(after, "identity") == Get(before, "identity"))
    && forall key :: key !in {"id", "name", "workspace", "model", "identity"} ==> Get(after, key) == Get(before, key)
  }

  lemma OverlayGet(before: Json, entry: Block, key: string)
    ensures Get(Overlay(before, entry), key) == if key in entry then entry[key] else Get(before, key)
  {
  }

  lemma EntryHolds(s: AgentSpec)
    ensures var e, name := s.Entry(), if s.displayName == "" then s.id else s.displayName;
            && (forall key :: key in e ==> key in {"id", "name", "workspace", "model", "identity"})
            && {"id", "name", "workspace", "model"} <= e.Keys && ("identity" in e <==> s.emoji != "" || s.displayName != "")
            && e["id"] == Str(s.id) && e["name"] == Str(name)
            && e["workspace"] == Str("/home/node/.openclaw/workspaces/" + s.id)
            && e["model"] == Obj(map["primary" := Str(s.model)])
            && ("identity" in e ==> e["identity"] == Obj(map["name" := Str(name), "emoji" := Str(s.emoji)]))
  {
    KeysDiffer();
  }

  lemma EntryWritten(s: AgentSpec, before: Json)
    ensures Entered(s, before, Overlay(before, s.Entry()))
  {
    EntryHolds(s);
    KeysDiffer();
    hide AgentSpec.Entry;
    forall key ensures Get(Overlay(before, s.Entry()), key) == if key in s.Entry() then s.Entry()[key] else Get(before, key) {
      OverlayGet(before, s.Entry(), key);
    }
    assert Overlay(before, s.Entry()).Obj?;
    hide Overlay;
  }

  lemma KeysDiffer()
    ensures "id" != "name" && "id" != "workspace" && "id" != "model" && "id" != "identity"
    ensures "name" != "workspace" && "name" != "model" && "name" != "identity" && "name" != "emoji"
    ensures "workspace" != "model" && "workspace" != "identity" && "model" != "identity"
  {
    assert |"id"| == 2 && |"name"| == 4 && |"workspace"| == 9 && |"model"| == 5 && |"identity"| == 8 && |"emoji"| == 5;
  }

  /** The agent list: the first entry of that id takes the agent's values, a missing one comes last, and no other entry
      moves or changes. */
  lemma MergedEntry(c: Config, s: AgentSpec, collate: Collation) returns (i: nat)
    ensures var before, after := c.agents.list.GetOr([]), Merge(c, s, collate).agents.list.GetOr([]);
            && i <= |before| && |after| == (if i == |before| then |before| + 1 else |before|)
            && (forall k :: 0 <= k < i ==> !(Truthy(before[k]) && Get(before[k], "id") == Str(s.id)))
            && (i < |before| ==> Truthy(before[i]) && Get(before[i], "id") == Str(s.id))
            && Entered(s, if i < |before| then before[i] else Null, after[i])
            && forall k :: 0 <= k < |before| && k != i ==> after[k] == before[k]
  {
    hide AgentSpec.Entry, Entered, MergeEntry, MergeProxy, MergeTools, NeedPlugin, MergeBindings, Overlay;
    var list := c.agents.list.GetOr([]);
    i := 0;
    while i < |list| && !HasId(list[i], s.id)
      invariant i <= |list| && forall k :: 0 <= k < i ==> !HasId(list[k], s.id)
    {
      i := i + 1;
    }
    MergeEntryAt(list, s.id, s.Entry(), i);
    var before := if i < |list| then list[i] else Null;
    EntryWritten(s, before);
    if i == |list| { NewEntry(s); }
  }

  lemma NewEntry(s: AgentSpec)
    ensures Overlay(Null, s.Entry()) == Obj(s.Entry())
  {
    assert map[] + s.Entry() == s.Entry();
  }

  /** A rule that says which peer, guild, team or single account it is for. */
  predicate Routes(b: Json) {
    var m := Get(b, "match");
    && Truthy(m)
    && (|| Truthy(Get(Get(m, "peer"), "id")) || Truthy(Get(m, "guildId")) || Truthy(Get(m, "teamId"))
        || (Truthy(Get(m, "accountId")) && Get(m, "accountId") != Str("*")))
  }

  lemma KeepIs(b: Json, id: string)
    ensures KeepBinding(id)(b) <==> Get(b, "agentId") != Str(id) && Routes(b)
  {
  }

  /** The rules: those of other agents that route something, and one of the agent's own if it has a channel. */
  lemma MergedBindings(c: Config, s: AgentSpec, collate: Collation, b: Json)
    ensures b in Merge(c, s, collate).bindings.GetOr([])
       <==> || (b in c.bindings.GetOr([]) && Get(b, "agentId") != Str(s.id) && Routes(b))
            || (s.channel != ""
                && b == Obj(map["agentId" := Str(s.id),
                                "match" := Obj(map["channel" := Str("discord"), "accountId" := Str("default"),
                                                   "peer" := Obj(map["kind" := Str("channel"), "id" := Str(s.channel)])])]))
  {
    hide MergeList, MergeProxy, MergeTools, NeedPlugin, KeepBinding, Routes, BindingRank, Sort, Filter, Get;
    var before := c.bindings.GetOr([]);
    var all := Filter(before, KeepBinding(s.id)) + s.Bindings();
    FilterMembers(before, KeepBinding(s.id));
    SortMembers(all, BindingRank(collate));
    KeepIs(b, s.id);
    assert b in Sort(all, BindingRank(collate)) <==> b in multiset(all);
  }

  function TextOf(j: Json): string { match j case Str(s) => s case _ => "" }

  /** What a rule is sorted by: agent id, tab and peer id. */
  function SortKey(b: Json): string { TextOf(Get(b, "agentId")) + "\t" + TextOf(Get(Get(Get(b, "match"), "peer"), "id")) }

  /** They come in the collation's order of their keys. */
  lemma MergedBindingsInOrder(c: Config, s: AgentSpec, collate: Collation, i: nat, j: nat)
    requires i < j < |Merge(c, s, collate).bindings.GetOr([])|
    ensures var after := Merge(c, s, collate).bindings.GetOr([]);
            collate(SortKey(after[i])) <= collate(SortKey(after[j]))
  {
    hide MergeList, MergeProxy, MergeTools, NeedPlugin, KeepBinding, BindingRank, Sort, Filter, SortKey;
    var all := Filter(c.bindings.GetOr([]), KeepBinding(s.id)) + s.Bindings();
    var after := Sort(all, BindingRank(collate));
    SortSorts(all, BindingRank(collate));
    SortedAt(after, BindingRank(collate), i, j);
    RankIs(collate, after[i]);
    RankIs(collate, after[j]);
  }

  lemma RankIs(collate: Collation, b: Json)
    ensures BindingRank(collate)(b) == collate(SortKey(b))
  {
    assert KeyPart(Get(b, "agentId")) == TextOf(Get(b, "agentId"));
    var peer := Get(Get(Get(b, "match"), "peer"), "id");
    assert KeyPart(peer) == TextOf(peer);
    assert SortKey(b) == KeyPart(Get(b, "agentId")) + "\t" + KeyPart(peer);
  }

  lemma {:induction false} AppendMissingMembers(list: seq<Json>, xs: seq<string>, j: Json)
    ensures j in AppendMissing(list, xs) <==> j in list || exists x :: x in xs && j == Str(x)
    decreases xs
  {
    if |xs| > 0 {
      AppendMissingMembers(if Str(xs[0]) in list then list else list + [Str(xs[0])], xs[1..], j);
      assert forall x :: x in xs <==> x == xs[0] || x in xs[1..];
    }
  }

  /** The browser proxy: enabled, and the profile at the end of the allowed ones where it is missing. */
  lemma MergedProxy(c: Config, s: AgentSpec, collate: Collation)
    ensures var before, after := c.browserProxy.allowProfiles.GetOr([]), Merge(c, s, collate).browserProxy;
            && after.enabled == Some(Bool(true))
            && after.allowProfiles == Some(if Str(s.profile) in before then before else before + [Str(s.profile)])
  {
    hide MergeList, MergeTools, NeedPlugin, MergeBindings;
    AppendOne(c.browserProxy.allowProfiles.GetOr([]), s.profile);
    hide AppendMissing;
  }

  lemma AppendOne(list: seq<Json>, x: string)
    ensures AppendMissing(list, [x]) == if Str(x) in list then list else list + [Str(x)]
  {
    assert [x][1..] == [];
  }

  /** The declared tools that the runtime's default profile lacks. */
  function Asked(s: AgentSpec): set<string> {
    set x | x in s.declaredTools && (x == "browser" || x == "canvas" || x == "screen" || x == "terminal")
  }

  lemma AskedFor(s: AgentSpec)
    ensures forall x :: x in Additive(s) <==> x in Asked(s)
    ensures |Additive(s)| == 0 <==> Asked(s) == {}
  {
    FilterMembers(s.declaredTools, t => t in ADDITIVE_TOOLS);
    assert forall x :: x in Additive(s) <==> x in Asked(s);
    if |Additive(s)| > 0 { assert Additive(s)[0] in Asked(s); }
  }

  /** The tools: those asked for are allowed on top and end an exclusive allow list. */
  lemma MergedTools(c: Config, s: AgentSpec, collate: Collation)
    ensures var before, after := c.tools, Merge(c, s, collate).tools;
            && (Asked(s) == {} ==> after.allow == before.allow && after.alsoAllow == before.alsoAllow)
            && (Asked(s) != {} ==>
                  && after.allow.None? && after.alsoAllow.Some?
                  && before.alsoAllow.GetOr([]) <= after.alsoAllow.value
                  && forall j :: j in after.alsoAllow.value
                       <==> (j in before.alsoAllow.GetOr([]) || exists x :: x in Asked(s) && j == Str(x)))
  {
    hide MergeList, MergeProxy, NeedPlugin, MergeBindings, Asked, Additive, AppendMissing;
    AskedFor(s);
    forall j ensures j in AppendMissing(c.tools.alsoAllow.GetOr([]), Additive(s))
                 <==> (j in c.tools.alsoAllow.GetOr([]) || exists x :: x in Asked(s) && j == Str(x))
    {
      AppendMissingMembers(c.tools.alsoAllow.GetOr([]), Additive(s), j);
    }
  }

  /** Web search: where it is declared, it gets the agent's provider and that provider's plugin unless there is one. */
  lemma MergedSearch(c: Config, s: AgentSpec, collate: Collation, plugin: string)
    ensures var c' := Merge(c, s, collate);
            var search := "web_search" in s.declaredTools;
            && c'.tools.webFetch == (if search && !Truthy(c.tools.webFetch) then Obj(map[]) else c.tools.webFetch)
            && c'.tools.searchProvider == (if search && c.tools.searchProvider == "" then s.searchProvider else c.tools.searchProvider)
            && Get(Obj(c'.plugins), plugin)
               == if search && plugin == c'.tools.searchProvider && plugin != "" && !Truthy(Get(Obj(c.plugins), plugin))
                  then Obj(map["enabled" := Bool(true)]) else Get(Obj(c.plugins), plugin)
  {
    hide MergeList, MergeProxy, MergeBindings, Additive, AppendMissing;
  }

  /** Everything else is as it was. */
  lemma MergedElsewhere(c: Config, s: AgentSpec, collate: Collation)
    ensures var c' := Merge(c, s, collate);
            && c'.gateway == c.gateway && c'.providers == c.providers && c'.auth == c.auth && c'.hooks == c.hooks
            && c'.rest == c.rest && c'.agents.defaultModel == c.agents.defaultModel
  {
    hide MergeEntry, MergeProxy, MergeTools, NeedPlugin, MergeBindings;
  }

  // ----- de-registration -----

  function KeepAgentBinding(id: string): Json -> bool { b => !(Truthy(b) && Get(b, "agentId") == Str(id)) }

  function KeepProfile(profile: string): Json -> bool { x => x != Str(profile) }

  function FilterList(list: Option<seq<Json>>, keep: Json -> bool): Option<seq<Json>> {
    match list
    case None => None
    case Some(l) => Some(Filter(l, keep))
  }

  function Deregister(c: Config, id: string, profile: string): Config {
    c.(agents := c.agents.(list := FilterList(c.agents.list, KeepEntry(id))),
       browserProxy := c.browserProxy.(allowProfiles := FilterList(c.browserProxy.allowProfiles, KeepProfile(profile))),
       bindings := FilterList(c.bindings, KeepAgentBinding(id)))
  }

  /** Nothing in the document mentions the agent any more. */
  ghost predicate Erased(c: Config, id: string, profile: string) {
    && (c.agents.list.Some? ==> forall a :: a in c.agents.list.value ==> !HasId(a, id))
    && (c.browserProxy.allowProfiles.Some? ==> Str(profile) !in c.browserProxy.allowProfiles.value)
    && (c.bindings.Some? ==> forall b :: b in c.bindings.value ==> Get(b, "agentId") != Str(id))
  }

  lemma FilterListErases(list: Option<seq<Json>>, keep: Json -> bool)
    ensures var l := FilterList(list, keep); l.Some? ==> forall x :: x in l.value ==> keep(x)
    ensures FilterList(list, keep) == list <==> (list.Some? ==> forall x :: x in list.value ==> keep(x))
  {
    if list.Some? {
      FilterMembers(list.value, keep);
      if forall x :: x in list.value ==> keep(x) { FilterAll(list.value, keep); }
    }
  }

  /** De-registration erases the agent from any document, and writes nothing exactly when nothing was left. */
  lemma DeregisterErases(c: Config, id: string, profile: string)
    ensures Erased(Deregister(c, id, profile), id, profile)
    ensures Deregister(c, id, profile) == c <==> Erased(c, id, profile)
  {
    FilterListErases(c.agents.list, KeepEntry(id));
    FilterListErases(c.browserProxy.allowProfiles, KeepProfile(profile));
    FilterListErases(c.bindings, KeepAgentBinding(id));
  }

  /** What is left of the three lists: whatever does not name the agent; of all the rest, everything. */
  lemma DeregisterLeaves(c: Config, id: string, profile: string, j: Json)
    ensures var c' := Deregister(c, id, profile);
            && (j in c'.agents.list.GetOr([]) <==> j in c.agents.list.GetOr([]) && !(Truthy(j) && Get(j, "id") == Str(id)))
            && (j in c'.browserProxy.allowProfiles.GetOr([]) <==> j in c.browserProxy.allowProfiles.GetOr([]) && j != Str(profile))
            && (j in c'.bindings.GetOr([]) <==> j in c.bindings.GetOr([]) && !(Truthy(j) && Get(j, "agentId") == Str(id)))
            && (c'.agents.list.None? <==> c.agents.list.None?) && (c'.bindings.None? <==> c.bindings.None?)
            && (c'.browserProxy.allowProfiles.None? <==> c.browserProxy.allowProfiles.None?)
            && c'.(agents := c.agents, browserProxy := c.browserProxy, bindings := c.bindings) == c
            && c'.agents.defaultModel == c.agents.defaultModel && c'.browserProxy.enabled == c.browserProxy.enabled
  {
    FilterMembers(c.agents.list.GetOr([]), KeepEntry(id));
    FilterMembers(c.browserProxy.allowProfiles.GetOr([]), KeepProfile(profile));
    FilterMembers(c.bindings.GetOr([]), KeepAgentBinding(id));
  }

  lemma {:induction false} EntryAbsent(list: seq<Json>, id: string, entry: Block, gone: string)
    requires id != gone && HasId(Obj(entry), id) && forall a :: a in list ==> !HasId(a, gone)
    ensures forall a :: a in MergeEntry(list, id, entry) ==> !HasId(a, gone)
  {
    if |list| == 0 {
    } else if HasId(list[0], id) {
      assert HasId(Overlay(list[0], entry), id);
    } else {
      EntryAbsent(list[1..], id, entry, gone);
    }
  }

  lemma BindingsAbsent(bindings: seq<Json>, t: AgentSpec, gone: string, collate: Collation)
    requires t.id != gone && forall b :: b in bindings ==> Get(b, "agentId") != Str(gone)
    ensures forall b :: b in MergeBindings(bindings, t, collate) ==> Get(b, "agentId") != Str(gone)
  {
    BindingReads(t);
    hide KeepBinding, AgentSpec.Binding;
    var kept := Filter(bindings, KeepBinding(t.id));
    FilterMembers(bindings, KeepBinding(t.id));
    SortMembers(kept + t.Bindings(), BindingRank(collate));
    forall b | b in MergeBindings(bindings, t, collate) ensures Get(b, "agentId") != Str(gone) {
      assert b in multiset(MergeBindings(bindings, t, collate));
      assert b in kept + t.Bindings();
    }
  }

  /** Another agent's merge, even its first, brings nothing of an erased agent back, if it has another browser profile. */
  lemma MergeKeepsErased(c: Config, t: AgentSpec, id: string, profile: string, collate: Collation)
    requires t.id != id && t.profile != profile && Erased(c, id, profile)
    ensures Erased(Merge(c, t, collate), id, profile)
  {
    hide MergeEntry, MergeBindings, AppendMissing, MergeTools, NeedPlugin, HasId, AgentSpec.Entry;
    EntryHasId(t);
    EntryAbsent(c.agents.list.GetOr([]), t.id, t.Entry(), id);
    ProfileAbsent(c.browserProxy.allowProfiles.GetOr([]), t.profile, profile);
    BindingsAbsent(c.bindings.GetOr([]), t, id, collate);
  }

  lemma DeregisterKeepsErased(c: Config, t: AgentSpec, id: string, profile: string)
    requires Erased(c, id, profile)
    ensures Erased(Deregister(c, t.id, t.profile), id, profile)
  {
    hide KeepEntry, KeepProfile, KeepAgentBinding, HasId;
    if c.agents.list.Some? { FilterMembers(c.agents.list.value, KeepEntry(t.id)); }
    if c.browserProxy.allowProfiles.Some? { FilterMembers(c.browserProxy.allowProfiles.value, KeepProfile(t.profile)); }
    if c.bindings.Some? { FilterMembers(c.bindings.value, KeepAgentBinding(t.id)); }
  }

  lemma ProfileAbsent(list: seq<Json>, x: string, gone: string)
    requires x != gone && Str(gone) !in list
    ensures Str(gone) !in AppendMissing(list, [x])
  {
    assert [x][1..] == [];
  }

  lemma MergeBindingsFilter(bindings: seq<Json>, t: AgentSpec, gone: string, collate: Collation)
    requires t.id != gone
    ensures MergeBindings(Filter(bindings, KeepAgentBinding(gone)), t, collate)
         == Filter(MergeBindings(bindings, t, collate), KeepAgentBinding(gone))
  {
    FilterAll(t.Bindings(), KeepAgentBinding(gone));
    ReplaceFilter(bindings, KeepBinding(t.id), t.Bindings(), BindingRank(collate), KeepAgentBinding(gone));
  }

  lemma DeregisterProxy(p: BrowserProxy, t: AgentSpec, profile: string)
    requires MergeProxy(p, t) == p
    ensures var p' := p.(allowProfiles := FilterList(p.allowProfiles, KeepProfile(profile)));
            MergeProxy(p', t) == p' <==> t.profile != profile
  {
    var left := Filter(p.allowProfiles.value, KeepProfile(profile));
    AppendMissingFixed(p.allowProfiles.value, [t.profile]);
    AppendMissingFixed(left, [t.profile]);
    FilterMembers(p.allowProfiles.value, KeepProfile(profile));
    assert t.profile in [t.profile];
  }

  /** Every other settled agent stays settled exactly when it does not share the browser profile. */
  lemma DeregisterKeepsOthers(c: Config, t: AgentSpec, id: string, profile: string, collate: Collation)
    requires t.id != id && Settled(c, t, collate)
    ensures Settled(Deregister(c, id, profile), t, collate) <==> t.profile != profile
  {
    SettledByParts(c, t, collate);
    EntryHasId(t);
    MergeEntryFilter(c.agents.list.value, t.id, t.Entry(), id);
    DeregisterProxy(c.browserProxy, t, profile);
    MergeBindingsFilter(c.bindings.value, t, id, collate);
    SettledByParts(Deregister(c, id, profile), t, collate);
  }

  /** Why the collation must separate the agents: with a tie, two agents are never settled together. */
  lemma TiedAgentsThrash(c: Config, s: AgentSpec, t: AgentSpec, collate: Collation)
    requires s.id != t.id && !Separated(s, t, collate)
    ensures !Settled(c, s, collate) || !Settled(c, t, collate)
  {
    if Settled(c, s, collate) && Settled(c, t, collate) {
      SettledByParts(c, s, collate);
      SettledByParts(c, t, collate);
      ReplaceTie(c.bindings.value, KeepBinding(s.id), s.Binding(), KeepBinding(t.id), t.Binding(), BindingRank(collate));
      BindingReads(s);
      BindingReads(t);
    }
  }
}
