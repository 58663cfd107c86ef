/** The model provider and credential convergence of the AgentGateway controller: what the in-pod script
    computes from the document, its sidecar list of managed providers, and the desired state. */
module ModelAuth {
  import opened Values
  import opened OpenClawConfig

  const CANONICAL := "openai"
  const LEGACY := "openai-codex"

  /** The desired state handed to the script, and the pod's gateway token ("" when unset). */
  datatype Desired = Desired(
    provider: Block,
    extras: map<string, Block>,
    defaultModel: string,
    profiles: map<string, Block>,
    order: map<string, seq<string>>,
    acceptable: map<string, seq<string>>,
    profileMode: string,
    http: Option<Block>,
    token: string)

  predicate Holds(m: Block, key: string, b: Block) { key in m && m[key] == Obj(b) }

  /** The canonical block in place, the legacy block gone. */
  function Canonical(providers: Block, d: Desired): Block {
    DropTruthy(providers[CANONICAL := Obj(d.provider)], {LEGACY})
  }

  function Extras(d: Desired): Block { map id | id in d.extras && id != CANONICAL :: Obj(d.extras[id]) }

  /** Connections rendered on an earlier pass and no longer desired. */
  function Dropped(managed: set<string>, d: Desired): set<string> { managed - d.extras.Keys - {CANONICAL} }

  function Providers(providers: Block, managed: set<string>, d: Desired): Block {
    DropTruthy(Canonical(providers, d) + Extras(d), Dropped(managed, d))
  }

  /** Only a default that still points at the canonical provider is redirected. */
  function DefaultModel(current: Option<string>, d: Desired): Option<string> {
    var cur := current.GetOr("");
    if d.defaultModel != "" && cur != d.defaultModel && (cur == "" || "openai/" <= cur)
    then Some(d.defaultModel) else current
  }

  function Profiles(profiles: Block, d: Desired): Block {
    profiles + map id | id in d.profiles :: Obj(d.profiles[id])
  }

  function Mode(d: Desired): string { if d.profileMode == "" then "oauth" else d.profileMode }

  function Acceptable(d: Desired, provider: string): seq<string> {
    if provider in d.acceptable then d.acceptable[provider] else []
  }

  /** Listed by this pass's discovery, or written by an earlier pass with the mode still asked for. */
  predicate StillValid(profiles: Block, d: Desired, provider: string, id: string) {
    id in Acceptable(d, provider) ||
    (id in profiles && Truthy(profiles[id]) && Get(profiles[id], "mode") == Str(Mode(d)))
  }

  /** The pin already in the document is kept. */
  predicate Sticky(a: Auth, d: Desired, provider: string) {
    && |Acceptable(d, provider)| > 0
    && provider in a.order && |a.order[provider]| > 0
    && forall id :: id in a.order[provider] ==> StillValid(a.profiles, d, provider, id)
  }

  function Kept(a: Auth, d: Desired): set<string> { set p | p in d.order && Sticky(a, d, p) }

  function Pinned(a: Auth, d: Desired): map<string, seq<string>> { a.order + (d.order - Kept(a, d)) }

  function AuthOf(a: Auth, d: Desired): Auth {
    var a' := a.(profiles := Profiles(a.profiles, d));
    a'.(order := Pinned(a', d) - {LEGACY})
  }

  function GatewayOf(g: Gateway, d: Desired): Gateway {
    Gateway(if d.token == "" then g.authToken else Some(d.token),
            if d.token == "" then g.remoteToken else Some(d.token),
            if d.http.Some? then Some(Obj(d.http.value)) else None)
  }

  function Converge(c: Config, managed: set<string>, d: Desired): Config {
    c.(gateway := GatewayOf(c.gateway, d),
       providers := Providers(c.providers, managed, d),
       agents := c.agents.(defaultModel := DefaultModel(c.agents.defaultModel, d)),
       auth := AuthOf(c.auth, d))
  }

  function Managed(d: Desired): set<string> { d.extras.Keys - {CANONICAL} }

  // ----- when the script reports a change (and the gateway is restarted) -----

  predicate ProvidersDrift(providers: Block, managed: set<string>, d: Desired) {
    || !Holds(providers, CANONICAL, d.provider)
    || (LEGACY in providers && Truthy(providers[LEGACY]))
    || (exists id :: id in d.extras && id != CANONICAL && !Holds(Canonical(providers, d), id, d.extras[id]))
    || (exists id :: id in Dropped(managed, d) && id in providers && id != LEGACY && Truthy(providers[id]))
  }

  predicate AuthDrift(a: Auth, d: Desired) {
    || (exists id :: id in d.profiles && !Holds(a.profiles, id, d.profiles[id]))
    || (var a' := a.(profiles := Profiles(a.profiles, d));
        || (exists p :: p in d.order && !Sticky(a', d, p) && !(p in a.order && a.order[p] == d.order[p]))
        || LEGACY in Pinned(a', d))
  }

  predicate Reports(c: Config, managed: set<string>, d: Desired) {
    || GatewayOf(c.gateway, d) != c.gateway
    || ProvidersDrift(c.providers, managed, d)
    || DefaultModel(c.agents.defaultModel, d) != c.agents.defaultModel
    || AuthDrift(c.auth, d)
  }

  /** No connection and no explicitly ordered provider carries the legacy name. */
  predicate NoLegacyName(d: Desired) { LEGACY !in d.extras && LEGACY !in d.order }

  // ----- what a pass leaves, part by part -----

  /** The default model: one on another provider than openai stays, and any does where none is desired. */
  lemma ConvergedDefault(c: Config, managed: set<string>, d: Desired)
    ensures var before, after := c.agents.defaultModel, Converge(c, managed, d).agents.defaultModel;
            && (d.defaultModel == "" ==> after == before)
            && (before.Some? && before.value != "" && !("openai/" <= before.value) ==> after == before)
            && (d.defaultModel != "" && (before.None? || before.value == "" || "openai/" <= before.value) ==>
                  after == Some(d.defaultModel))
  {
    hide GatewayOf, Providers, AuthOf;
  }

  /** The gateway's tokens follow the pod's, where it has one; its http block is the desired one or gone. */
  lemma ConvergedGateway(c: Config, managed: set<string>, d: Desired)
    ensures var g := Converge(c, managed, d).gateway;
            && (d.token == "" ==> g.authToken == c.gateway.authToken && g.remoteToken == c.gateway.remoteToken)
            && (d.token != "" ==> g.authToken == Some(d.token) && g.remoteToken == Some(d.token))
            && (g.http.Some? <==> d.http.Some?) && (d.http.Some? ==> g.http == Some(Obj(d.http.value)))
  {
    hide Providers, AuthOf, DefaultModel;
  }

  /** A provider's block: the canonical one and the connections' are overwritten, the legacy one and those of dropped
      connections go, every other stays. */
  lemma ConvergedProvider(c: Config, managed: set<string>, d: Desired, id: string)
    ensures var before, after := c.providers, Converge(c, managed, d).providers;
            if id == "openai" then id in after && after[id] == Obj(d.provider)
            else if id in d.extras then id in after && after[id] == Obj(d.extras[id])
            else if id == "openai-codex" || id in managed
            then (id in after <==> id in before && !Truthy(before[id])) && (id in after ==> after[id] == before[id])
            else (id in after <==> id in before) && (id in after ==> after[id] == before[id])
  {
    hide GatewayOf, AuthOf, DefaultModel;
    assert "openai" != "openai-codex";
  }

  /** A credential's entry: overwritten where desired, else as it was. */
  lemma ConvergedProfile(c: Config, managed: set<string>, d: Desired, id: string)
    ensures var before, after := c.auth.profiles, Converge(c, managed, d).auth.profiles;
            if id in d.profiles then id in after && after[id] == Obj(d.profiles[id])
            else (id in after <==> id in before) && (id in after ==> after[id] == before[id])
  {
    hide GatewayOf, Providers, DefaultModel, Pinned;
  }

  /** A pin that stays: there is something acceptable, and each pinned credential is acceptable or has a profile of the
      mode asked for. */
  predicate Stays(profiles: Block, pin: seq<string>, acceptable: seq<string>, mode: string) {
    && acceptable != [] && pin != []
    && forall id :: id in pin ==>
         id in acceptable || Get(Get(Obj(profiles), id), "mode") == Str(if mode == "" then "oauth" else mode)
  }

  /** The pinned credentials of a provider. */
  lemma ConvergedOrder(c: Config, managed: set<string>, d: Desired, provider: string)
    ensures var before, after := c.auth.order, Converge(c, managed, d).auth;
            var acceptable := if provider in d.acceptable then d.acceptable[provider] else [];
            var stays := provider in before && Stays(after.profiles, before[provider], acceptable, d.profileMode);
            if provider == "openai-codex" then provider !in after.order
            else if provider in d.order && !stays then provider in after.order && after.order[provider] == d.order[provider]
            else (provider in after.order <==> provider in before) && (provider in before ==> after.order[provider] == before[provider])
  {
    hide GatewayOf, Providers, DefaultModel, Profiles, Stays;
    var a' := c.auth.(profiles := Profiles(c.auth.profiles, d));
    StickyIs(a', d, provider);
    hide Sticky;
  }

  lemma StickyIs(a: Auth, d: Desired, provider: string)
    ensures Sticky(a, d, provider)
       <==> provider in a.order
            && Stays(a.profiles, a.order[provider], if provider in d.acceptable then d.acceptable[provider] else [], d.profileMode)
  {
    forall id ensures id in a.profiles && Get(a.profiles[id], "mode") == Str(Mode(d)) ==> Truthy(a.profiles[id]) {}
  }

  /** The other writers' parts are as they were. */
  lemma ConvergedElsewhere(c: Config, managed: set<string>, d: Desired)
    ensures var c' := Converge(c, managed, d);
            && c'.agents.list == c.agents.list && c'.hooks == c.hooks && c'.browserProxy == c.browserProxy
            && c'.tools == c.tools && c'.plugins == c.plugins && c'.bindings == c.bindings && c'.rest == c.rest
    ensures Managed(d) == set id | id in d.extras && id != "openai"
  {
    hide GatewayOf, Providers, AuthOf, DefaultModel;
  }

  // ----- the document changes exactly when a change is reported -----

  lemma ProvidersFixed(providers: Block, managed: set<string>, d: Desired)
    requires !ProvidersDrift(providers, managed, d)
    ensures Providers(providers, managed, d) == providers
  {
    assert providers[CANONICAL := Obj(d.provider)] == providers;
    assert Canonical(providers, d) == providers;
    forall id | id in Extras(d) ensures Holds(providers, id, d.extras[id]) {}
    assert providers + Extras(d) == providers;
    forall id | id in Dropped(managed, d) && id in providers ensures !Truthy(providers[id]) {}
  }

  lemma AuthFixed(a: Auth, d: Desired)
    requires !AuthDrift(a, d)
    ensures AuthOf(a, d) == a
  {
    assert Profiles(a.profiles, d) == a.profiles;
    assert a.(profiles := a.profiles) == a;
    assert Pinned(a, d) == a.order;
    assert a.order - {LEGACY} == a.order;
  }

  lemma QuietWritesNothing(c: Config, managed: set<string>, d: Desired)
    requires !Reports(c, managed, d)
    ensures Converge(c, managed, d) == c
  {
    ProvidersFixed(c.providers, managed, d);
    AuthFixed(c.auth, d);
  }

  // ----- idempotence, and the names that break it -----

  lemma ProvidersSettle(providers: Block, managed: set<string>, d: Desired)
    requires LEGACY !in d.extras
    ensures !ProvidersDrift(Providers(providers, managed, d), Managed(d), d)
  {
    var p := Providers(providers, managed, d);
    forall id | id in d.extras && id != CANONICAL ensures Holds(p, id, d.extras[id]) {
      assert id in Extras(d);
    }
    assert Holds(Canonical(providers, d), CANONICAL, d.provider) by { assert CANONICAL != LEGACY; }
    assert CANONICAL !in Extras(d);
    assert Holds(p, CANONICAL, d.provider);
    assert p[CANONICAL := Obj(d.provider)] == p;
    assert !(LEGACY in p && Truthy(p[LEGACY]));
    assert Canonical(p, d) == p;
    assert Dropped(Managed(d), d) == {};
  }

  lemma AuthSettles(a: Auth, d: Desired)
    requires LEGACY !in d.order
    ensures !AuthDrift(AuthOf(a, d), d)
  {
    var a1 := a.(profiles := Profiles(a.profiles, d));
    var a2 := AuthOf(a, d);
    assert Profiles(a2.profiles, d) == a2.profiles;
    forall p | p in d.order && !Sticky(a2, d, p) ensures p in a2.order && a2.order[p] == d.order[p] {
      assert p in Pinned(a1, d);
      assert !Sticky(a1, d, p);
    }
    assert a2.(profiles := a2.profiles) == a2;
  }

  lemma LegacyExtraAlwaysDrifts(providers: Block, managed: set<string>, d: Desired)
    requires LEGACY in d.extras
    ensures ProvidersDrift(providers, managed, d)
  {
    assert LEGACY != CANONICAL;
    if !(LEGACY in providers && Truthy(providers[LEGACY])) {
      assert !Holds(Canonical(providers, d), LEGACY, d.extras[LEGACY]);
    }
  }

  lemma LegacyOrderAlwaysDrifts(a: Auth, d: Desired)
    requires LEGACY in d.order
    ensures AuthDrift(a, d)
  {
    var a' := a.(profiles := Profiles(a.profiles, d));
    assert LEGACY in Pinned(a', d);
  }

  /** One pass settles every document exactly when the legacy name is not asked for.
      Where it is, the deletions fight the writes and every pass on every document reports a change. */
  lemma IdempotentExactly(c: Config, managed: set<string>, d: Desired)
    ensures NoLegacyName(d) <==> !Reports(Converge(c, managed, d), Managed(d), d)
    ensures !NoLegacyName(d) ==> Reports(c, managed, d)
  {
    var c' := Converge(c, managed, d);
    if NoLegacyName(d) {
      ProvidersSettle(c.providers, managed, d);
      AuthSettles(c.auth, d);
    } else if LEGACY in d.extras {
      LegacyExtraAlwaysDrifts(c.providers, managed, d);
      LegacyExtraAlwaysDrifts(c'.providers, Managed(d), d);
    } else {
      LegacyOrderAlwaysDrifts(c.auth, d);
      LegacyOrderAlwaysDrifts(c'.auth, d);
    }
  }

  /** Without the legacy name a reported change is a changed document: no restart for nothing. */
  lemma ReportIsAChange(c: Config, managed: set<string>, d: Desired)
    requires NoLegacyName(d) && Reports(c, managed, d)
    ensures Converge(c, managed, d) != c
  {
    if Converge(c, managed, d) == c {
      if ProvidersDrift(c.providers, managed, d) {
        ProvidersSettle(c.providers, managed, d);
      } else {
        AuthSettles(c.auth, d);
      }
    }
  }
}
