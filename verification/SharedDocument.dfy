/** The one openclaw.json a gateway and its agents' reconciles share, and the scripts that rewrite it in place.
    Each script run is one atomic step. */
module SharedDocument {
  import opened Values
  import opened OpenClawConfig
  import opened AgentMerge
  import StableSort
  import ModelAuth
  import Hooks

  /** The gateway's persistent files. */
  class GatewayFiles {
    var cfg: Config
    /** The sidecar list of providers the operator manages; its order and duplicates are immaterial. */
    var managed: set<string>

    constructor (cfg: Config)
      ensures this.cfg == cfg && managed == {}
    {
      this.cfg := cfg;
      managed := {};
    }

    /** The model provider and credential convergence. */
    method ConvergeModelAuth(d: ModelAuth.Desired) returns (changed: bool)
      modifies this
      ensures changed == ModelAuth.Reports(old(cfg), old(managed), d)
      ensures cfg == ModelAuth.Converge(old(cfg), old(managed), d)
      ensures managed == ModelAuth.Managed(d)
    {
      changed := false;
      var c := cfg;
      if d.token != "" && c.gateway.authToken != Some(d.token) {
        c := c.(gateway := c.gateway.(authToken := Some(d.token)));
        changed := true;
      }
      if d.token != "" && c.gateway.remoteToken != Some(d.token) {
        c := c.(gateway := c.gateway.(remoteToken := Some(d.token)));
        changed := true;
      }
      var providers, drift := ConvergeProviders(c.providers, d);
      c := c.(providers := providers);
      changed := changed || drift;
      if d.defaultModel != "" {
        var cur := c.agents.defaultModel.GetOr("");
        if cur != d.defaultModel && (cur == "" || "openai/" <= cur) {
          c := c.(agents := c.agents.(defaultModel := Some(d.defaultModel)));
          changed := true;
        }
      }
      var auth, authDrift := ConvergeAuth(c.auth, d);
      c := c.(auth := auth);
      changed := changed || authDrift;
      if d.http.Some? {
        if c.gateway.http != Some(Obj(d.http.value)) {
          c := c.(gateway := c.gateway.(http := Some(Obj(d.http.value))));
          changed := true;
        }
      } else if c.gateway.http.Some? {
        c := c.(gateway := c.gateway.(http := None));
        changed := true;
      }
      managed := ModelAuth.Managed(d);
      if changed {
        cfg := c;
      } else {
        ModelAuth.QuietWritesNothing(cfg, old(managed), d);
      }
    }

    method ConvergeProviders(before: Block, d: ModelAuth.Desired) returns (providers: Block, drift: bool)
      ensures providers == ModelAuth.Providers(before, managed, d)
      ensures drift == ModelAuth.ProvidersDrift(before, managed, d)
    {
      providers, drift := before, false;
      if !ModelAuth.Holds(providers, ModelAuth.CANONICAL, d.provider) {
        providers := providers[ModelAuth.CANONICAL := Obj(d.provider)];
        drift := true;
      }
      if ModelAuth.LEGACY in providers && Truthy(providers[ModelAuth.LEGACY]) {
        providers := providers - {ModelAuth.LEGACY};
        drift := true;
      }
      LegacyDropped(before, d);
      hide ModelAuth.Canonical;
      ghost var canonical := providers;
      var extraDrift, staleDrift;
      providers, extraDrift := WriteEntries(providers, ModelAuth.Extras(d), {});
      assert ModelAuth.Extras(d) - {} == ModelAuth.Extras(d);
      providers, staleDrift := DropStale(providers, ModelAuth.Dropped(managed, d));
      StaleWasThere(before, managed, d);
      drift := drift || extraDrift || staleDrift;
    }

    /** Writes every entry that is neither kept as it is nor already there. */
    static method WriteEntries<V(==)>(before: map<string, V>, entries: map<string, V>, kept: set<string>)
      returns (after: map<string, V>, drift: bool)
      ensures after == before + (entries - kept)
      ensures drift <==> exists id :: id in entries && id !in kept && !(id in before && before[id] == entries[id])
    {
      after, drift := before, false;
      var todo := entries.Keys;
      while todo != {}
        invariant todo <= entries.Keys
        invariant after == before + (entries - kept - todo)
        invariant drift <==> exists id :: id in entries && id !in kept && id !in todo && !(id in before && before[id] == entries[id])
        decreases todo
      {
        var id :| id in todo;
        if id !in kept && !(id in after && after[id] == entries[id]) {
          after := after[id := entries[id]];
          drift := true;
        }
        todo := todo - {id};
      }
    }

    static method DropStale(before: Block, stale: set<string>) returns (providers: Block, drift: bool)
      ensures providers == DropTruthy(before, stale)
      ensures drift <==> exists id :: id in stale && id in before && Truthy(before[id])
    {
      providers, drift := before, false;
      var todo := stale;
      while todo != {}
        invariant todo <= stale
        invariant providers == DropTruthy(before, stale - todo)
        invariant drift <==> exists id :: id in stale - todo && id in before && Truthy(before[id])
        decreases todo
      {
        var id :| id in todo;
        if id in providers && Truthy(providers[id]) {
          providers := providers - {id};
          drift := true;
        }
        todo := todo - {id};
      }
    }

    method ConvergeAuth(before: Auth, d: ModelAuth.Desired) returns (auth: Auth, drift: bool)
      ensures auth == ModelAuth.AuthOf(before, d)
      ensures drift == ModelAuth.AuthDrift(before, d)
    {
      hide ModelAuth.Sticky;
      var profiles, order, orderDrift;
      var wanted := map id | id in d.profiles :: Obj(d.profiles[id]);
      profiles, drift := WriteEntries(before.profiles, wanted, {});
      assert wanted - {} == wanted;
      var a := before.(profiles := profiles);
      order, orderDrift := WriteEntries(before.order, d.order, ModelAuth.Kept(a, d));
      drift := drift || orderDrift;
      if ModelAuth.LEGACY in order {
        order := order - {ModelAuth.LEGACY};
        drift := true;
      } else {
        assert order - {ModelAuth.LEGACY} == order;
      }
      auth := Auth(profiles, order);
    }

    static lemma LegacyDropped(before: Block, d: ModelAuth.Desired)
      ensures var p := before[ModelAuth.CANONICAL := Obj(d.provider)];
              ModelAuth.Canonical(before, d)
              == (if ModelAuth.LEGACY in p && Truthy(p[ModelAuth.LEGACY]) then p - {ModelAuth.LEGACY} else p)
      ensures ModelAuth.Holds(before, ModelAuth.CANONICAL, d.provider)
              ==> before[ModelAuth.CANONICAL := Obj(d.provider)] == before
    {
    }

    /** A stale block the loop finds was in the document before, and is not the legacy one. */
    static lemma StaleWasThere(before: Block, managed: set<string>, d: ModelAuth.Desired)
      ensures var extended := ModelAuth.Canonical(before, d) + ModelAuth.Extras(d);
              var stale := ModelAuth.Dropped(managed, d);
              (exists id :: id in stale && id in extended && Truthy(extended[id]))
              <==> (exists id :: id in stale && id in before && id != ModelAuth.LEGACY && Truthy(before[id]))
    {
      var extended := ModelAuth.Canonical(before, d) + ModelAuth.Extras(d);
      forall id | id in ModelAuth.Dropped(managed, d)
        ensures (id in extended && Truthy(extended[id])) <==> (id in before && id != ModelAuth.LEGACY && Truthy(before[id]))
      {
      }
    }

    /** The hooks convergence; `inEnv` says whether the pod it runs in carries the token. */
    method ConvergeHooks(r: Hooks.Render, inEnv: bool) returns (changed: bool)
      modifies this`cfg
      ensures cfg == Hooks.Converge(old(cfg), r, inEnv)
      ensures changed == (cfg != old(cfg))
    {
      var before := cfg;
      var h := Hooks.Current(cfg.hooks);
      if r.enabled {
        if !inEnv { return false; }
        h := h["enabled" := Bool(true)];
        h := h["token" := Hooks.Ref(r)];
        h := h["path" := Str(r.path)];
        if r.allowedAgentIds.Some? { h := h["allowedAgentIds" := Hooks.Strings(r.allowedAgentIds.value)]; }
        h := h["allowRequestSessionKey" := Bool(r.allowRequestSessionKey)];
      } else {
        if "enabled" in h && Truthy(h["enabled"]) { h := h["enabled" := Bool(false)]; }
        if "token" in h && h["token"] == Hooks.Ref(r) { h := h - {"token"}; }
      }
      if cfg.hooks.Some? || h != map[] {
        cfg := cfg.(hooks := Some(Obj(h)));
      }
      changed := cfg != before;
    }

    /** One agent's registration. */
    method MergeAgent(s: AgentSpec, collate: Collation) returns (changed: bool)
      modifies this`cfg
      ensures cfg == Merge(old(cfg), s, collate)
      ensures changed == (cfg != old(cfg))
    {
      var before := cfg;
      var list := cfg.agents.list.GetOr([]);
      var i := 0;
      while i < |list| && !HasId(list[i], s.id)
        invariant i <= |list|
        invariant forall k :: 0 <= k < i ==> !HasId(list[k], s.id)
      {
        i := i + 1;
      }
      MergeEntryAt(list, s.id, s.Entry(), i);
      hide AgentSpec.Entry, AgentSpec.Binding, WideCatchAll, MergeEntry, AppendMissing;
      list := if i < |list| then list[i := Overlay(list[i], s.Entry())] else list + [Obj(s.Entry())];
      var allow := PushMissing(cfg.browserProxy.allowProfiles.GetOr([]), [s.profile]);
      var tools, plugins := ProvideTools(cfg.tools, cfg.plugins, s);
      var bindings := StableSort.Filter(cfg.bindings.GetOr([]), KeepBinding(s.id));
      if s.channel != "" { bindings := bindings + [s.Binding()]; }
      assert s.channel == "" ==> bindings == bindings + [];
      bindings := StableSort.Sort(bindings, BindingRank(collate));
      cfg := cfg.(agents := cfg.agents.(list := Some(list)),
                  browserProxy := BrowserProxy(Some(Bool(true)), Some(allow)),
                  tools := tools, plugins := plugins, bindings := Some(bindings));
      changed := cfg != before;
    }

    static method ProvideTools(before: Tools, plugins0: Block, s: AgentSpec) returns (tools: Tools, plugins: Block)
      ensures tools == MergeTools(before, s)
      ensures plugins == NeedPlugin(plugins0, tools.searchProvider, s)
    {
      tools, plugins := before, plugins0;
      var additive := Additive(s);
      if |additive| > 0 {
        var also := PushMissing(tools.alsoAllow.GetOr([]), additive);
        tools := tools.(allow := None, alsoAllow := Some(also));
      }
      if "web_search" in s.declaredTools {
        if !Truthy(tools.webFetch) { tools := tools.(webFetch := Obj(map[])); }
        if tools.searchProvider == "" { tools := tools.(searchProvider := s.searchProvider); }
        var provider := tools.searchProvider;
        if provider != "" && !(provider in plugins && Truthy(plugins[provider])) {
          plugins := plugins[provider := Obj(map["enabled" := Bool(true)])];
        }
      }
    }

    static method PushMissing(list: seq<Json>, xs: seq<string>) returns (r: seq<Json>)
      ensures r == AppendMissing(list, xs)
    {
      r := list;
      for i := 0 to |xs|
        invariant AppendMissing(r, xs[i..]) == AppendMissing(list, xs)
      {
        if Str(xs[i]) !in r { r := r + [Str(xs[i])]; }
        assert xs[i..][1..] == xs[i + 1..];
      }
    }

    /** The inverse of a registration, when the agent is deleted. */
    method DeregisterAgent(id: string, profile: string) returns (changed: bool)
      modifies this`cfg
      ensures cfg == Deregister(old(cfg), id, profile)
      ensures changed == !Erased(old(cfg), id, profile)
    {
      var before := cfg;
      if cfg.agents.list.Some? {
        cfg := cfg.(agents := cfg.agents.(list := Some(StableSort.Filter(cfg.agents.list.value, KeepEntry(id)))));
      }
      if cfg.browserProxy.allowProfiles.Some? {
        cfg := cfg.(browserProxy := cfg.browserProxy.(allowProfiles :=
          Some(StableSort.Filter(cfg.browserProxy.allowProfiles.value, KeepProfile(profile)))));
      }
      if cfg.bindings.Some? {
        cfg := cfg.(bindings := Some(StableSort.Filter(cfg.bindings.value, KeepAgentBinding(id))));
      }
      changed := cfg != before;
      DeregisterErases(before, id, profile);
    }
  }
}
