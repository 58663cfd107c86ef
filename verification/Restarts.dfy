/** From the gateway's spec and the credentials it holds to the desired state, and how often a fixed spec
    can restart the gateway while those credentials come and go. */
module Restarts {
  import opened Values
  import opened OpenClawConfig
  import opened ModelAuth
  import opened Text

  const SUBSCRIPTION := "subscription"
  const API_KEY := "apiKey"

  datatype Model = Model(id: string, name: string)

  datatype ModelAuthSpec = ModelAuthSpec(
    mode: string, profileID: string, order: map<string, seq<string>>, models: seq<Model>)

  datatype GatewaySpec = GatewaySpec(
    modelAuth: Option<ModelAuthSpec>, codexCredentials: string, envFrom: string, chatCompletions: bool)
  {
    /** The billing route: explicit, else implied by subscription credentials. */
    function Mode(): string {
      if modelAuth.Some? && modelAuth.value.mode != "" then modelAuth.value.mode
      else if codexCredentials != "" then SUBSCRIPTION else API_KEY
    }

    /** No openai credential is declared at all. */
    predicate Keyless() { Mode() == API_KEY && modelAuth.None? && envFrom == "" }

    predicate ExplicitOrder() { modelAuth.Some? && |modelAuth.value.order| > 0 }

    function ProfileID(): string { if modelAuth.Some? then modelAuth.value.profileID else "" }

    /** The pin comes from asking the gateway which credentials it holds. */
    predicate Discovers() { !ExplicitOrder() && ProfileID() == "" && !Keyless() }

    function Catalog(): seq<Model> {
      if modelAuth.Some? && |modelAuth.value.models| > 0 then modelAuth.value.models
      else if Mode() == API_KEY then
        [Model("gpt-5.5", "GPT-5.5"), Model("gpt-5.4", "GPT-5.4"),
         Model("gpt-4o-mini", "gpt-4o-mini"), Model("gpt-4o", "gpt-4o")]
      else
        [Model("gpt-5.6-sol", "GPT-5.6 Sol"), Model("gpt-5.6", "GPT-5.6"),
         Model("gpt-5.5", "GPT-5.5"), Model("gpt-5.4", "GPT-5.4")]
    }
  }

  /** One row of the gateway's credential listing. */
  datatype ProfileRow = ProfileRow(id: string, kind: string)

  function ProfileMode(mode: string): string { if mode == API_KEY then "api_key" else "oauth" }

  function Matching(rows: seq<ProfileRow>, kind: string): seq<string> {
    if |rows| == 0 then [] else (if rows[0].kind == kind then [rows[0].id] else []) + Matching(rows[1..], kind)
  }

  /** The preferred credential is the least one of the mode's kind, so it does not depend on the listing order. */
  method DiscoverOpenAIAuthProfile(rows: seq<ProfileRow>, mode: string) returns (matching: seq<string>)
    ensures SortedNames(matching)
    ensures multiset(matching) == multiset(Matching(rows, ProfileMode(mode)))
    ensures forall id :: multiset(matching)[id]
              == multiset(rows)[ProfileRow(id, if mode == "apiKey" then "api_key" else "oauth")]
    ensures |matching| > 0 ==> forall id :: id in Matching(rows, ProfileMode(mode)) ==> Leq(matching[0], id)
  {
    var want := ProfileMode(mode);
    var found: seq<string> := [];
    for i := 0 to |rows|
      invariant found + Matching(rows[i..], want) == Matching(rows, want)
    {
      assert rows[i..][1..] == rows[i + 1..];
      if rows[i].kind == want {
        found := found + [rows[i].id];
      }
    }
    assert found == Matching(rows, want);
    matching := SortStrings(found);
    forall id ensures multiset(Matching(rows, want))[id] == multiset(rows)[ProfileRow(id, want)] { MatchingCount(rows, want, id); }
    forall id | id in found ensures |matching| > 0 ==> Leq(matching[0], id) {
      assert id in multiset(matching);
      FirstLeast(matching, id);
    }
  }

  lemma {:induction false} MatchingCount(rows: seq<ProfileRow>, kind: string, id: string)
    ensures multiset(Matching(rows, kind))[id] == multiset(rows)[ProfileRow(id, kind)]
  {
    if |rows| > 0 {
      MatchingCount(rows[1..], kind, id);
      assert rows == [rows[0]] + rows[1..];
      assert multiset(rows) == multiset{rows[0]} + multiset(rows[1..]);
      var own := if rows[0].kind == kind then [rows[0].id] else [];
      assert multiset(own + Matching(rows[1..], kind)) == multiset(own) + multiset(Matching(rows[1..], kind));
    }
  }

  /** The same credentials listed in any order give the same matching list, and so the same pin. */
  lemma SameMatchingInAnyOrder(a: seq<ProfileRow>, b: seq<ProfileRow>, kind: string, ma: seq<string>, mb: seq<string>)
    requires multiset(a) == multiset(b)
    requires SortedNames(ma) && multiset(ma) == multiset(Matching(a, kind))
    requires SortedNames(mb) && multiset(mb) == multiset(Matching(b, kind))
    ensures ma == mb
  {
    hide Leq, Matching;
    forall id ensures multiset(ma)[id] == multiset(mb)[id] {
      MatchingCount(a, kind, id);
      MatchingCount(b, kind, id);
    }
    SortedUnique(ma, mb);
  }

  // ----- the desired state -----

  function ProviderBlock(s: GatewaySpec): Block {
    var catalog := s.Catalog();
    var title := (m: Model) => if m.name == "" then m.id else m.name;
    if s.Mode() == API_KEY then
      map["baseUrl" := Str("https://api.openai.com/v1"), "api" := Str("openai-completions"),
          "models" := Arr(seq(|catalog|, i requires 0 <= i < |catalog| =>
            Obj(map["id" := Str(catalog[i].id), "name" := Str(title(catalog[i]))])))]
      + if s.Keyless() then map[] else map["apiKey" := Str("${OPENAI_API_KEY}")]
    else
      map["baseUrl" := Str("https://chatgpt.com/backend-api"), "api" := Str("openai-chatgpt-responses"),
          "models" := Arr(seq(|catalog|, i requires 0 <= i < |catalog| =>
            Obj(map["id" := Str(catalog[i].id), "name" := Str(title(catalog[i])),
                    "api" := Str("openai-chatgpt-responses")])))]
  }

  /** Everything but the pinned credential. */
  function Base(s: GatewaySpec, extras: map<string, Block>, firstModel: string, token: string): Desired {
    Desired(ProviderBlock(s), extras, if s.Keyless() then firstModel else "", map[], map[], map[],
            ProfileMode(s.Mode()),
            if s.chatCompletions
            then Some(map["endpoints" := Obj(map["chatCompletions" := Obj(map["enabled" := Bool(true)])])]) else None,
            token)
  }

  function ProfileBlock(mode: string): Block { map["provider" := Str("openai"), "mode" := Str(mode)] }

  function Pin(base: Desired, profile: string, acceptable: seq<string>): Desired {
    base.(profiles := map[profile := ProfileBlock(base.profileMode)],
          order := map[CANONICAL := [profile]],
          acceptable := map[CANONICAL := acceptable])
  }

  /** None where the pass ends with an error: a subscription gateway without a stored credential.
      `matching` lists the credentials of the mode's kind, and is not consulted unless the spec leaves the pin open. */
  function DesiredState(s: GatewaySpec, extras: map<string, Block>, firstModel: string, token: string,
                        matching: seq<string>): Option<Desired> {
    var base := Base(s, extras, firstModel, token);
    if s.ExplicitOrder() then Some(base.(order := s.modelAuth.value.order))
    else if s.ProfileID() != "" then Some(Pin(base, s.ProfileID(), []))
    else if s.Keyless() then Some(base)
    else if |matching| > 0 then Some(if matching[0] == "" then base else Pin(base, matching[0], matching))
    else if s.Mode() == API_KEY then Some(base)
    else None
  }

  /** The route a spec asks for, or that its credentials imply. */
  function Route(s: GatewaySpec): string {
    match s.modelAuth
    case Some(m) => if m.mode != "" then m.mode else if s.codexCredentials == "" then "apiKey" else "subscription"
    case None => if s.codexCredentials == "" then "apiKey" else "subscription"
  }

  /** The models as a provider block lists them; a model without a name goes by its id. */
  predicate Serves(j: Json, models: seq<Model>, api: Json) {
    && j.Arr? && |j.items| == |models|
    && forall i :: 0 <= i < |models| ==>
         && Get(j.items[i], "id") == Str(models[i].id) && Get(j.items[i], "api") == api
         && Get(j.items[i], "name") == (if models[i].name == "" then Str(models[i].id) else Str(models[i].name))
  }

  /** The canonical block of every desired state: the metered address with a key unless no credential is declared, or the
      subscription's address and never a key. */
  lemma DesiredProvider(s: GatewaySpec, extras: map<string, Block>, firstModel: string, token: string, matching: seq<string>)
    requires DesiredState(s, extras, firstModel, token, matching).Some?
    ensures var b := Obj(DesiredState(s, extras, firstModel, token, matching).value.provider);
            if Route(s) == "apiKey" then
              && Get(b, "baseUrl") == Str("https://api.openai.com/v1") && Get(b, "api") == Str("openai-completions")
              && Get(b, "apiKey") == (if s.modelAuth.None? && s.envFrom == "" then Null else Str("${OPENAI_API_KEY}"))
              && Serves(Get(b, "models"), s.Catalog(), Null)
            else
              && Get(b, "baseUrl") == Str("https://chatgpt.com/backend-api") && Get(b, "api") == Str("openai-chatgpt-responses")
              && Get(b, "apiKey") == Null && Serves(Get(b, "models"), s.Catalog(), Str("openai-chatgpt-responses"))
  {
    RouteIs(s);
    FromBase(s, extras, firstModel, token, matching);
    hide GatewaySpec.Catalog, GatewaySpec.Mode, GatewaySpec.Keyless, DesiredState, Route, Serves, ProviderBlock;
    BlockIs(s);
  }

  lemma RouteIs(s: GatewaySpec)
    ensures Route(s) == s.Mode() && (s.Keyless() <==> Route(s) == "apiKey" && s.modelAuth.None? && s.envFrom == "")
  {
  }

  lemma FromBase(s: GatewaySpec, extras: map<string, Block>, firstModel: string, token: string, matching: seq<string>)
    requires DesiredState(s, extras, firstModel, token, matching).Some?
    ensures var d, base := DesiredState(s, extras, firstModel, token, matching).value, Base(s, extras, firstModel, token);
            base == d.(profiles := map[], order := map[], acceptable := map[])
            && base.provider == ProviderBlock(s)
  {
    hide ProviderBlock, GatewaySpec.Mode, GatewaySpec.Keyless;
  }

  lemma BlockIs(s: GatewaySpec)
    ensures var b := Obj(ProviderBlock(s));
            if s.Mode() == API_KEY then
              && Get(b, "baseUrl") == Str("https://api.openai.com/v1") && Get(b, "api") == Str("openai-completions")
              && Get(b, "apiKey") == (if s.Keyless() then Null else Str("${OPENAI_API_KEY}"))
              && Serves(Get(b, "models"), s.Catalog(), Null)
            else
              && Get(b, "baseUrl") == Str("https://chatgpt.com/backend-api") && Get(b, "api") == Str("openai-chatgpt-responses")
              && Get(b, "apiKey") == Null && Serves(Get(b, "models"), s.Catalog(), Str("openai-chatgpt-responses"))
  {
    if s.Mode() == API_KEY { MeteredBlock(s); } else { SubscriptionBlock(s); }
    hide *;
  }

  lemma MeteredBlock(s: GatewaySpec)
    requires s.Mode() == API_KEY
    ensures var b := Obj(ProviderBlock(s));
            && Get(b, "baseUrl") == Str("https://api.openai.com/v1") && Get(b, "api") == Str("openai-completions")
            && Get(b, "apiKey") == (if s.Keyless() then Null else Str("${OPENAI_API_KEY}"))
            && Serves(Get(b, "models"), s.Catalog(), Null)
  {
    hide GatewaySpec.Catalog, GatewaySpec.Mode, GatewaySpec.Keyless;
    BlockKeysDiffer();
    ModelKeysDiffer();
  }

  lemma SubscriptionBlock(s: GatewaySpec)
    requires s.Mode() != API_KEY
    ensures var b := Obj(ProviderBlock(s));
            && Get(b, "baseUrl") == Str("https://chatgpt.com/backend-api") && Get(b, "api") == Str("openai-chatgpt-responses")
            && Get(b, "apiKey") == Null && Serves(Get(b, "models"), s.Catalog(), Str("openai-chatgpt-responses"))
  {
    hide GatewaySpec.Catalog, GatewaySpec.Mode, GatewaySpec.Keyless;
    BlockKeysDiffer();
    ModelKeysDiffer();
  }

  lemma BlockKeysDiffer()
    ensures "baseUrl" != "api" && "baseUrl" != "models" && "baseUrl" != "apiKey"
    ensures "api" != "models" && "api" != "apiKey" && "models" != "apiKey"
  {
    assert |"baseUrl"| == 7 && |"api"| == 3 && "models"[0] != "apiKey"[0];
  }

  lemma ModelKeysDiffer()
    ensures "id" != "name" && "id" != "api" && "name" != "api"
  {
    assert |"id"| == 2 && |"name"| == 4 && |"api"| == 3;
  }

  /** The models are those of the spec where it lists any. */
  lemma CatalogIs(s: GatewaySpec)
    ensures s.modelAuth.Some? && s.modelAuth.value.models != [] ==> s.Catalog() == s.modelAuth.value.models
    ensures s.modelAuth.None? || s.modelAuth.value.models == [] ==>
              (set m | m in s.Catalog())
              == if Route(s) == "apiKey" then
                   {Model("gpt-5.5", "GPT-5.5"), Model("gpt-5.4", "GPT-5.4"), Model("gpt-4o-mini", "gpt-4o-mini"), Model("gpt-4o", "gpt-4o")}
                 else
                   {Model("gpt-5.6-sol", "GPT-5.6 Sol"), Model("gpt-5.6", "GPT-5.6"), Model("gpt-5.5", "GPT-5.5"), Model("gpt-5.4", "GPT-5.4")}
  {
    RouteIs(s);
    hide GatewaySpec.Mode, Route;
    var c := s.Catalog();
    if s.modelAuth.None? || s.modelAuth.value.models == [] {
      assert c[0] in c && c[1] in c && c[2] in c && c[3] in c;
    }
  }

  /** What every desired state takes over as it is given. */
  lemma DesiredRest(s: GatewaySpec, extras: map<string, Block>, firstModel: string, token: string, matching: seq<string>)
    requires DesiredState(s, extras, firstModel, token, matching).Some?
    ensures var d := DesiredState(s, extras, firstModel, token, matching).value;
            && d.extras == extras && d.token == token
            && d.defaultModel == (if Route(s) == "apiKey" && s.modelAuth.None? && s.envFrom == "" then firstModel else "")
            && d.profileMode == (if Route(s) == "apiKey" then "api_key" else "oauth")
            && (d.http.Some? <==> s.chatCompletions)
            && (d.http.Some? ==> Get(Get(Get(Obj(d.http.value), "endpoints"), "chatCompletions"), "enabled") == Bool(true))
  {
    RouteIs(s);
    FromBase(s, extras, firstModel, token, matching);
    hide ProviderBlock, GatewaySpec.Mode, GatewaySpec.Keyless, DesiredState, Route;
  }

  /** The pinned credential: an explicit order as it is, else the profile the spec names, else the preferred one found;
      a subscription gateway without any is an error. */
  lemma DesiredPin(s: GatewaySpec, extras: map<string, Block>, firstModel: string, token: string, matching: seq<string>)
    ensures var open := !(s.modelAuth.Some? && s.modelAuth.value.order != map[])
                        && !(s.modelAuth.Some? && s.modelAuth.value.profileID != "");
            && (DesiredState(s, extras, firstModel, token, matching).None? <==> open && Route(s) != "apiKey" && matching == [])
            && (DesiredState(s, extras, firstModel, token, matching).Some? ==>
                  var d := DesiredState(s, extras, firstModel, token, matching).value;
                  var keyless := Route(s) == "apiKey" && s.modelAuth.None? && s.envFrom == "";
                  if s.modelAuth.Some? && s.modelAuth.value.order != map[] then
                    d.order == s.modelAuth.value.order && d.profiles == map[]
                  else if !open || (!keyless && matching != [] && matching[0] != "") then
                    var id, found := if open then matching[0] else s.modelAuth.value.profileID, if open then matching else [];
                    PinsOne(d, id, found, if Route(s) == "apiKey" then "api_key" else "oauth")
                  else d.order == map[] && d.profiles == map[] && d.acceptable == map[])
  {
    RouteIs(s);
    if s.modelAuth.Some? { assert |s.modelAuth.value.order| > 0 <==> s.modelAuth.value.order != map[]; }
    var base := Base(s, extras, firstModel, token);
    forall id, found ensures PinsOne(Pin(base, id, found), id, found, base.profileMode) { PinReads(base, id, found); }
    BaseReads(s, extras, firstModel, token);
    hide Base, Pin, GatewaySpec.Mode, GatewaySpec.Keyless, Route;
  }

  lemma BaseReads(s: GatewaySpec, extras: map<string, Block>, firstModel: string, token: string)
    ensures var base := Base(s, extras, firstModel, token);
            && base.order == map[] && base.profiles == map[] && base.acceptable == map[]
            && base.profileMode == (if s.Mode() == API_KEY then "api_key" else "oauth")
  {
    hide ProviderBlock, GatewaySpec.Mode, GatewaySpec.Keyless;
  }

  /** The desired state pins one credential and gives it a profile of the mode. */
  predicate PinsOne(d: Desired, id: string, found: seq<string>, mode: string) {
    && d.order == map["openai" := [id]] && d.acceptable == map["openai" := found] && d.profiles.Keys == {id}
    && Get(Obj(d.profiles[id]), "provider") == Str("openai") && Get(Obj(d.profiles[id]), "mode") == Str(mode)
  }

  lemma PinReads(base: Desired, id: string, found: seq<string>)
    ensures PinsOne(Pin(base, id, found), id, found, base.profileMode)
  {
    ProfileHasMode(base.profileMode);
    assert |"provider"| == 8 && |"mode"| == 4;
  }

  /** Only a connection or an explicit order can bring the legacy name in. */
  lemma LegacyNameComesFrom(s: GatewaySpec, extras: map<string, Block>, firstModel: string, token: string,
                            matching: seq<string>)
    requires DesiredState(s, extras, firstModel, token, matching).Some?
    ensures NoLegacyName(DesiredState(s, extras, firstModel, token, matching).value)
       <==> LEGACY !in extras && !(s.ExplicitOrder() && LEGACY in s.modelAuth.value.order)
  {
    assert LEGACY != CANONICAL;
  }

  // ----- runs -----

  /** A pass that discovers credentials, the preferred one first; a pass that discovers none to pin and goes on without,
      as an apiKey gateway does; or anything the document's other writers do to their own parts. */
  datatype AnyStep = Discovery(ids: seq<string>) | Unpinned | Others(c: Config)

  type Step = step: AnyStep | step.Discovery? ==> |step.ids| > 0 witness Discovery([""])

  datatype World = World(c: Config, managed: set<string>)

  function Wanted(base: Desired, ids: seq<string>): Desired
    requires |ids| > 0
  {
    Pin(base, ids[0], ids)
  }

  /** `other` everywhere except in what this convergence owns. */
  function Frame(c: Config, other: Config): Config {
    other.(gateway := c.gateway, providers := c.providers, auth := c.auth,
           agents := other.agents.(defaultModel := c.agents.defaultModel))
  }

  function Next(w: World, base: Desired, step: Step): World
  {
    match step
    case Discovery(ids) => World(Converge(w.c, w.managed, Wanted(base, ids)), Managed(base))
    case Unpinned => World(Converge(w.c, w.managed, base), Managed(base))
    case Others(other) => World(Frame(w.c, other), w.managed)
  }

  predicate Restarting(w: World, base: Desired, step: Step)
  {
    || (step.Discovery? && Reports(w.c, w.managed, Wanted(base, step.ids)))
    || (step.Unpinned? && Reports(w.c, w.managed, base))
  }

  predicate WritesOrder(w: World, base: Desired, step: Step)
  {
    !step.Others? &&
    var order, order' := w.c.auth.order, Next(w, base, step).c.auth.order;
    CANONICAL in order' && !(CANONICAL in order && order[CANONICAL] == order'[CANONICAL])
  }

  function RestartCount(w: World, base: Desired, run: seq<Step>): nat
    decreases run
  {
    if |run| == 0 then 0 else
    (if Restarting(w, base, run[0]) then 1 else 0) + RestartCount(Next(w, base, run[0]), base, run[1..])
  }

  function OrderWriteCount(w: World, base: Desired, run: seq<Step>): nat
    decreases run
  {
    if |run| == 0 then 0 else
    (if WritesOrder(w, base, run[0]) then 1 else 0) + OrderWriteCount(Next(w, base, run[0]), base, run[1..])
  }

  /** The preferred credentials of a run. */
  function Preferred(run: seq<Step>): set<string> {
    if |run| == 0 then {} else
    (if run[0].Discovery? then {run[0].ids[0]} else {}) + Preferred(run[1..])
  }

  /** What stays the same over a run: everything but the pin. */
  predicate FixedSpec(base: Desired) {
    LEGACY !in base.extras && base.profileMode != "" && base.profiles == map[] && base.order == map[] && base.acceptable == map[]
  }

  lemma ProfileHasMode(mode: string)
    ensures Get(Obj(ProfileBlock(mode)), "mode") == Str(mode)
  {
    assert |"mode"| == 4 && |"provider"| == 8;
  }

  /** The provider part of the convergence does not look at the pin. */
  lemma SameProviders(providers: Block, managed: set<string>, base: Desired, ids: seq<string>)
    requires |ids| > 0
    ensures Providers(providers, managed, Wanted(base, ids)) == Providers(providers, managed, base)
    ensures ProvidersDrift(providers, managed, Wanted(base, ids)) <==> ProvidersDrift(providers, managed, base)
  {
    assert Extras(Wanted(base, ids)) == Extras(base);
    assert Canonical(providers, Wanted(base, ids)) == Canonical(providers, base);
    assert Dropped(managed, Wanted(base, ids)) == Dropped(managed, base);
  }

  lemma ProfilesLearn(profiles: Block, base: Desired, ids: seq<string>)
    requires |ids| > 0
    ensures Profiles(profiles, Wanted(base, ids)) == profiles[ids[0] := Obj(ProfileBlock(base.profileMode))]
  {
  }

  lemma PinnedOne(a: Auth, d: Desired, provider: string, ids: seq<string>)
    requires d.order == map[provider := ids]
    ensures Pinned(a, d) == if Sticky(a, d, provider) then a.order else a.order[provider := ids]
  {
    hide Sticky;
    if Sticky(a, d, provider) {
      assert d.order - Kept(a, d) == map[];
    } else {
      assert d.order - Kept(a, d) == map[provider := ids];
    }
  }

  function Entry(base: Desired): Json { Obj(ProfileBlock(base.profileMode)) }

  predicate SamePin(a: Auth, b: Auth) {
    CANONICAL in a.order && CANONICAL in b.order && a.order[CANONICAL] == b.order[CANONICAL]
  }

  /** The profile has the mode the spec routes through. */
  predicate Backed(profiles: Block, base: Desired, id: string) {
    id in profiles && Get(profiles[id], "mode") == Str(base.profileMode)
  }

  /** The pin is vouched for by profiles this convergence wrote, whatever a later discovery lists. */
  ghost predicate Locked(a: Auth, base: Desired) {
    && CANONICAL in a.order && |a.order[CANONICAL]| > 0
    && forall id :: id in a.order[CANONICAL] ==> Backed(a.profiles, base, id)
  }

  /** What a discovery does to the credential wiring: it learns its preferred credential, and either keeps the pin,
      as it must where the pin is locked, or moves it to that credential. */
  lemma PinStep(a: Auth, base: Desired, ids: seq<string>)
    requires FixedSpec(base) && |ids| > 0
    ensures var a' := AuthOf(a, Wanted(base, ids));
            && a'.profiles == a.profiles[ids[0] := Entry(base)]
            && LEGACY !in a'.order
            && (SamePin(a, a') || (CANONICAL in a'.order && a'.order[CANONICAL] == [ids[0]]))
            && (Locked(a, base) ==> SamePin(a, a'))
  {
    var a1 := a.(profiles := Profiles(a.profiles, Wanted(base, ids)));
    ProfilesLearn(a.profiles, base, ids);
    PinnedOne(a1, Wanted(base, ids), CANONICAL, [ids[0]]);
    assert LEGACY != CANONICAL;
    if Locked(a, base) {
      LockedIsSticky(a, base, ids);
    }
    hide Locked, StillValid;
  }

  /** The credential wiring drifts for no other reason than these. */
  lemma PinDrift(a: Auth, base: Desired, ids: seq<string>)
    requires FixedSpec(base) && |ids| > 0 && LEGACY !in a.order && AuthDrift(a, Wanted(base, ids))
    ensures !SamePin(a, AuthOf(a, Wanted(base, ids))) || !(ids[0] in a.profiles && a.profiles[ids[0]] == Entry(base))
  {
    var d := Wanted(base, ids);
    var a1 := a.(profiles := Profiles(a.profiles, d));
    ProfilesLearn(a.profiles, base, ids);
    PinnedOne(a1, d, CANONICAL, [ids[0]]);
    assert LEGACY != CANONICAL;
    hide Sticky, Profiles;
  }

  lemma LockedIsSticky(a: Auth, base: Desired, ids: seq<string>)
    requires FixedSpec(base) && |ids| > 0 && Locked(a, base)
    ensures Sticky(a.(profiles := Profiles(a.profiles, Wanted(base, ids))), Wanted(base, ids), CANONICAL)
  {
    var d := Wanted(base, ids);
    ProfilesLearn(a.profiles, base, ids);
    ProfileHasMode(base.profileMode);
    var a1 := a.(profiles := Profiles(a.profiles, d));
    forall id | id in a.order[CANONICAL] ensures StillValid(a1.profiles, d, CANONICAL, id) {
      assert Get(a1.profiles[id], "mode") == Str(base.profileMode);
    }
  }

  /** All but the pin has converged, and the profiles of the credentials in `known` have been written. */
  ghost predicate Calm(w: World, base: Desired, known: set<string>) {
    && GatewayOf(w.c.gateway, base) == w.c.gateway
    && !ProvidersDrift(w.c.providers, w.managed, base)
    && DefaultModel(w.c.agents.defaultModel, base) == w.c.agents.defaultModel
    && LEGACY !in w.c.auth.order
    && forall id :: id in known ==> id in w.c.auth.profiles && w.c.auth.profiles[id] == Entry(base)
  }

  lemma DiscoveryCalms(w: World, base: Desired, ids: seq<string>, known: set<string>)
    requires FixedSpec(base) && |ids| > 0
    requires known == {} || Calm(w, base, known)
    ensures Calm(Next(w, base, Discovery(ids)), base, known + {ids[0]})
  {
    hide AuthOf, Entry, ProvidersDrift, Providers, Locked, SamePin;
    ProvidersSettle(w.c.providers, w.managed, Wanted(base, ids));
    SameProviders(w.c.providers, w.managed, base, ids);
    SameProviders(Providers(w.c.providers, w.managed, base), Managed(base), base, ids);
    PinStep(w.c.auth, base, ids);
  }

  /** A locked pin stays as it is, and a pin that is written is locked. */
  lemma LockStep(w: World, base: Desired, ids: seq<string>)
    requires FixedSpec(base) && |ids| > 0
    ensures var w' := Next(w, base, Discovery(ids));
            && (Locked(w.c.auth, base) ==> Locked(w'.c.auth, base) && !WritesOrder(w, base, Discovery(ids)))
            && (WritesOrder(w, base, Discovery(ids)) ==> Locked(w'.c.auth, base))
  {
    hide AuthOf, Providers, GatewayOf, DefaultModel;
    PinStep(w.c.auth, base, ids);
    ProfileHasMode(base.profileMode);
  }

  /** A converged gateway restarts only to learn a credential or to move the pin. */
  lemma CalmRestarts(w: World, base: Desired, ids: seq<string>, known: set<string>)
    requires FixedSpec(base) && |ids| > 0
    requires Calm(w, base, known) && Restarting(w, base, Discovery(ids))
    ensures WritesOrder(w, base, Discovery(ids)) || ids[0] !in known
  {
    hide AuthOf, AuthDrift, Providers, ProvidersDrift, Locked;
    SameProviders(w.c.providers, w.managed, base, ids);
    PinStep(w.c.auth, base, ids);
    PinDrift(w.c.auth, base, ids);
  }

  /** Both, as the runs below use them. */
  lemma DiscoveryStep(w: World, base: Desired, ids: seq<string>, known: set<string>)
    requires FixedSpec(base) && |ids| > 0
    ensures var w' := Next(w, base, Discovery(ids));
            && (Locked(w.c.auth, base) ==> Locked(w'.c.auth, base) && !WritesOrder(w, base, Discovery(ids)))
            && (WritesOrder(w, base, Discovery(ids)) ==> Locked(w'.c.auth, base))
            && (Calm(w, base, known) && Restarting(w, base, Discovery(ids)) ==>
                  WritesOrder(w, base, Discovery(ids)) || ids[0] !in known)
  {
    hide *;
    LockStep(w, base, ids);
    if Calm(w, base, known) && Restarting(w, base, Discovery(ids)) {
      CalmRestarts(w, base, ids, known);
    }
  }

  lemma CountNew(p: string, rest: set<string>, known: set<string>)
    ensures |({p} + rest) - known| >= |rest - (known + {p})| + (if p in known then 0 else 1)
  {
    var novel := ({p} + rest) - known;
    if p in known {
      SubsetSize(rest - (known + {p}), novel);
    } else {
      assert novel - {p} == rest - (known + {p});
    }
  }

  lemma CalmForgets(w: World, base: Desired, known: set<string>)
    requires Calm(w, base, known)
    ensures Calm(w, base, {})
  {
    hide Entry, ProvidersDrift;
  }

  lemma OthersStep(w: World, base: Desired, other: Config, known: set<string>)
    ensures var w' := Next(w, base, Others(other));
            && (Calm(w, base, known) ==> Calm(w', base, known))
            && (Locked(w.c.auth, base) ==> Locked(w'.c.auth, base))
            && !Restarting(w, base, Others(other)) && !WritesOrder(w, base, Others(other))
  {
  }

  /** A pass without a pin leaves the pin and the profiles alone, and calms the rest; it reports a change exactly when
      the rest was not calm. */
  lemma UnpinnedStep(w: World, base: Desired, known: set<string>)
    requires FixedSpec(base)
    ensures var w' := Next(w, base, Unpinned);
            && Calm(w', base, {}) && (Calm(w, base, known) ==> Calm(w', base, known))
            && (Calm(w, base, {}) <==> !Restarting(w, base, Unpinned))
            && w'.c.auth == w.c.auth.(order := w.c.auth.order - {LEGACY})
            && (Locked(w.c.auth, base) <==> Locked(w'.c.auth, base)) && !WritesOrder(w, base, Unpinned)
  {
    UnpinnedAuth(w.c.auth, base);
    UnpinnedLock(w.c.auth, base);
    hide AuthOf, Providers, ProvidersDrift, Locked, Entry, DefaultModel, AuthDrift;
    ProvidersSettle(w.c.providers, w.managed, base);
    DefaultSettles(w.c.agents.defaultModel, base);
    assert LEGACY != CANONICAL;
  }

  lemma DefaultSettles(current: Option<string>, base: Desired)
    ensures DefaultModel(DefaultModel(current, base), base) == DefaultModel(current, base)
  {
  }

  lemma UnpinnedAuth(a: Auth, base: Desired)
    requires FixedSpec(base)
    ensures AuthOf(a, base) == a.(order := a.order - {LEGACY})
    ensures AuthDrift(a, base) <==> LEGACY in a.order
  {
    assert Profiles(a.profiles, base) == a.profiles;
    assert base.order - Kept(a, base) == map[];
    assert a.(profiles := a.profiles) == a;
    assert Pinned(a, base) == a.order;
  }

  lemma UnpinnedLock(a: Auth, base: Desired)
    ensures Locked(a, base) <==> Locked(a.(order := a.order - {LEGACY}), base)
  {
    assert LEGACY != CANONICAL;
  }

  /** Once locked, the pin is never written again, and each restart learns a new credential. */
  lemma {:induction false} LockedRun(w: World, base: Desired, run: seq<Step>, known: set<string>)
    requires FixedSpec(base) && Calm(w, base, known) && Locked(w.c.auth, base)
    ensures OrderWriteCount(w, base, run) == 0
    ensures RestartCount(w, base, run) <= |Preferred(run) - known|
    decreases run
  {
    hide Next, Restarting, WritesOrder, Calm, Locked, FixedSpec;
    if |run| > 0 {
      var w' := Next(w, base, run[0]);
      match run[0]
      case Others(other) =>
        OthersStep(w, base, other, known);
        LockedRun(w', base, run[1..], known);
        assert {} + Preferred(run[1..]) == Preferred(run[1..]);
      case Unpinned =>
        UnpinnedStep(w, base, known);
        CalmForgets(w, base, known);
        LockedRun(w', base, run[1..], known);
        assert {} + Preferred(run[1..]) == Preferred(run[1..]);
      case Discovery(ids) =>
        DiscoveryCalms(w, base, ids, known);
        DiscoveryStep(w, base, ids, known);
        LockedRun(w', base, run[1..], known + {ids[0]});
        CountNew(ids[0], Preferred(run[1..]), known);
    }
  }

  lemma {:induction false} CalmRun(w: World, base: Desired, run: seq<Step>, known: set<string>)
    requires FixedSpec(base) && Calm(w, base, known)
    ensures OrderWriteCount(w, base, run) <= 1
    ensures RestartCount(w, base, run) <= 1 + |Preferred(run) - known|
    decreases run
  {
    hide Next, Restarting, WritesOrder, Calm, Locked, FixedSpec;
    if |run| > 0 {
      var w' := Next(w, base, run[0]);
      match run[0]
      case Others(other) =>
        OthersStep(w, base, other, known);
        CalmRun(w', base, run[1..], known);
        assert {} + Preferred(run[1..]) == Preferred(run[1..]);
      case Unpinned =>
        UnpinnedStep(w, base, known);
        CalmForgets(w, base, known);
        CalmRun(w', base, run[1..], known);
        assert {} + Preferred(run[1..]) == Preferred(run[1..]);
      case Discovery(ids) =>
        DiscoveryCalms(w, base, ids, known);
        DiscoveryStep(w, base, ids, known);
        CountNew(ids[0], Preferred(run[1..]), known);
        if WritesOrder(w, base, run[0]) {
          LockedRun(w', base, run[1..], known + {ids[0]});
        } else {
          CalmRun(w', base, run[1..], known + {ids[0]});
        }
    }
  }

  /** With a fixed spec, over any interleaving of passes with and without a discovered credential with the other writers,
      and from any document: the pin is written at most once, and the gateway restarts at most twice more often than
      there are distinct preferred credentials. */
  lemma {:induction false} RestartBound(w: World, base: Desired, run: seq<Step>)
    requires FixedSpec(base)
    ensures OrderWriteCount(w, base, run) <= 1
    ensures RestartCount(w, base, run) <= 2 + |Preferred(run)|
    decreases run
  {
    hide Next, Restarting, WritesOrder, Calm, Locked, FixedSpec;
    if |run| > 0 {
      var w' := Next(w, base, run[0]);
      assert {} + Preferred(run[1..]) == Preferred(run[1..]);
      match run[0]
      case Others(other) =>
        OthersStep(w, base, other, {});
        RestartBound(w', base, run[1..]);
      case Unpinned =>
        UnpinnedStep(w, base, {});
        CalmRun(w', base, run[1..], {});
        assert Preferred(run) - {} == Preferred(run);
      case Discovery(ids) =>
        FirstDiscovery(w, base, run);
    }
  }

  /** A run that starts with a discovery. */
  lemma FirstDiscovery(w: World, base: Desired, run: seq<Step>)
    requires FixedSpec(base) && |run| > 0 && run[0].Discovery?
    ensures OrderWriteCount(w, base, run) <= 1
    ensures RestartCount(w, base, run) <= 1 + |Preferred(run)|
  {
    hide Next, Restarting, WritesOrder, Calm, Locked, FixedSpec;
    var w', ids := Next(w, base, run[0]), run[0].ids;
    DiscoveryCalms(w, base, ids, {});
    DiscoveryStep(w, base, ids, {});
    CountNew(ids[0], Preferred(run[1..]), {});
    assert Preferred(run) - {} == Preferred(run);
    if WritesOrder(w, base, run[0]) {
      LockedRun(w', base, run[1..], {} + {ids[0]});
    } else {
      CalmRun(w', base, run[1..], {} + {ids[0]});
    }
  }

  /** A subscription gateway, and an apiKey one that always finds a credential, takes no pass without a pin: one restart
      more than the distinct preferred credentials is enough, from any document. */
  lemma {:induction false} AlwaysPinnedBound(w: World, base: Desired, run: seq<Step>)
    requires FixedSpec(base) && forall step :: step in run ==> !step.Unpinned?
    ensures RestartCount(w, base, run) <= 1 + |Preferred(run)|
    decreases run
  {
    hide Next, Restarting, WritesOrder, Calm, Locked, FixedSpec;
    if |run| > 0 {
      var w' := Next(w, base, run[0]);
      assert {} + Preferred(run[1..]) == Preferred(run[1..]);
      match run[0]
      case Others(other) =>
        OthersStep(w, base, other, {});
        AlwaysPinnedBound(w', base, run[1..]);
      case Discovery(ids) =>
        FirstDiscovery(w, base, run);
    }
  }

  // ----- when one more than the preferred credentials is enough -----

  predicate HasPin(a: Auth) { CANONICAL in a.order && |a.order[CANONICAL]| > 0 }

  /** A calm gateway without a pin: the first discovery writes it, locked. */
  lemma {:induction false} OpenRun(w: World, base: Desired, run: seq<Step>)
    requires FixedSpec(base) && Calm(w, base, {}) && !HasPin(w.c.auth)
    ensures RestartCount(w, base, run) <= |Preferred(run)|
    decreases run
  {
    hide Next, Restarting, WritesOrder, Calm, Locked, FixedSpec, HasPin;
    if |run| > 0 {
      var w' := Next(w, base, run[0]);
      assert {} + Preferred(run[1..]) == Preferred(run[1..]);
      match run[0]
      case Others(other) =>
        OthersStep(w, base, other, {});
        OthersKeepPin(w, base, other);
        OpenRun(w', base, run[1..]);
      case Unpinned =>
        UnpinnedStep(w, base, {});
        UnpinnedKeepsPin(w, base);
        OpenRun(w', base, run[1..]);
      case Discovery(ids) =>
        DiscoveryCalms(w, base, ids, {});
        OpenPinIsWritten(w, base, ids);
        LockedRun(w', base, run[1..], {} + {ids[0]});
        CountNew(ids[0], Preferred(run[1..]), {});
        assert Preferred(run) - {} == Preferred(run);
    }
  }

  lemma OthersKeepPin(w: World, base: Desired, other: Config)
    ensures Next(w, base, Others(other)).c.auth == w.c.auth
  {
  }

  lemma UnpinnedKeepsPin(w: World, base: Desired)
    requires FixedSpec(base)
    ensures HasPin(Next(w, base, Unpinned).c.auth) <==> HasPin(w.c.auth)
  {
    UnpinnedStep(w, base, {});
    hide Converge, Calm, Locked, Restarting, WritesOrder;
    assert LEGACY != CANONICAL;
  }

  lemma OpenPinIsWritten(w: World, base: Desired, ids: seq<string>)
    requires FixedSpec(base) && |ids| > 0 && !HasPin(w.c.auth)
    ensures Locked(Next(w, base, Discovery(ids)).c.auth, base)
  {
    var a1 := w.c.auth.(profiles := Profiles(w.c.auth.profiles, Wanted(base, ids)));
    ProfilesLearn(w.c.auth.profiles, base, ids);
    PinnedOne(a1, Wanted(base, ids), CANONICAL, [ids[0]]);
    ProfileHasMode(base.profileMode);
    assert LEGACY != CANONICAL;
    hide Providers, GatewayOf, DefaultModel;
  }

  /** A run from a gateway that is not calm but has no pin, or a locked one. */
  lemma {:induction false} PlainRun(w: World, base: Desired, run: seq<Step>)
    requires FixedSpec(base) && (Locked(w.c.auth, base) || !HasPin(w.c.auth))
    ensures RestartCount(w, base, run) <= 1 + |Preferred(run)|
    decreases run
  {
    hide Next, Restarting, WritesOrder, Calm, Locked, FixedSpec, HasPin;
    if |run| > 0 {
      var w' := Next(w, base, run[0]);
      assert {} + Preferred(run[1..]) == Preferred(run[1..]);
      assert Preferred(run) - {} == Preferred(run);
      match run[0]
      case Others(other) =>
        OthersStep(w, base, other, {});
        OthersKeepPin(w, base, other);
        PlainRun(w', base, run[1..]);
      case Unpinned =>
        UnpinnedStep(w, base, {});
        UnpinnedKeepsPin(w, base);
        if Locked(w.c.auth, base) { LockedRun(w', base, run[1..], {}); } else { OpenRun(w', base, run[1..]); }
        assert Preferred(run[1..]) - {} == Preferred(run[1..]);
      case Discovery(ids) =>
        FirstDiscovery(w, base, run);
    }
  }

  /** A name not among some others. */
  lemma {:induction false} LongerThanAll(names: set<string>) returns (n: nat)
    ensures forall s :: s in names ==> |s| < n
  {
    n := 0;
    if names != {} {
      var s :| s in names;
      var m := LongerThanAll(names - {s});
      n := if m > |s| then m else |s| + 1;
    }
  }

  lemma FreshName(names: set<string>) returns (a: string)
    ensures a !in names && a != ""
  {
    var n := LongerThanAll(names);
    a := seq(n + 1, i => 'x');
  }

  /** The gateway is not calm, and its pin is neither vouched for by written profiles nor absent. */
  ghost predicate LoosePin(w: World, base: Desired) {
    Restarting(w, base, Unpinned) && HasPin(w.c.auth) && !Locked(w.c.auth, base)
  }

  /** Then three restarts come of one preferred credential the document does not know, in any listing that has it first
      and the pinned ones after it: to calm down, to learn it, and to move the pin to it once the others are no longer
      listed. */
  lemma ThreeRestarts(w: World, base: Desired, ids: seq<string>) returns (run: seq<Step>)
    requires FixedSpec(base) && LoosePin(w, base)
    requires |ids| > 0 && ids[0] !in w.c.auth.order[CANONICAL] && ids[0] !in w.c.auth.profiles
    requires forall id :: id in w.c.auth.order[CANONICAL] ==> id in ids
    ensures run == [Unpinned, Discovery(ids), Discovery([ids[0]])]
    ensures RestartCount(w, base, run) == 3 && |Preferred(run)| == 1
  {
    hide Converge, Reports, Calm, Locked;
    var pins, a := w.c.auth.order[CANONICAL], ids[0];
    run := [Unpinned, Discovery(ids), Discovery([a])];
    var w1 := Next(w, base, Unpinned);
    var w2 := Next(w1, base, Discovery(ids));
    UnpinnedStep(w, base, {});
    assert LEGACY != CANONICAL;
    LearnsBeside(w1, base, ids);
    var id := Unbacked(w1.c.auth, base);
    assert a !in pins && !Backed(w2.c.auth.profiles, base, id);
    MovesPin(w2, base, a);
    CountThree(w, base, run);
    assert Preferred([Discovery([a])]) == {a} by { assert [Discovery([a])][1..] == []; }
    assert Preferred(run[1..]) == {a} by { assert run[1..][1..] == [Discovery([a])]; }
  }

  lemma Unbacked(a: Auth, base: Desired) returns (id: string)
    requires HasPin(a) && !Locked(a, base)
    ensures id in a.order[CANONICAL] && !Backed(a.profiles, base, id)
  {
    id :| id in a.order[CANONICAL] && !Backed(a.profiles, base, id);
  }

  lemma CountThree(w: World, base: Desired, run: seq<Step>)
    requires |run| == 3
    requires var w1 := Next(w, base, run[0]);
             Restarting(w, base, run[0]) && Restarting(w1, base, run[1]) && Restarting(Next(w1, base, run[1]), base, run[2])
    ensures RestartCount(w, base, run) == 3
  {
    hide Next, Restarting;
    var w1 := Next(w, base, run[0]);
    var w2 := Next(w1, base, run[1]);
    assert run[1..][0] == run[1] && run[2..][0] == run[2] && run[1..][1..] == run[2..] && run[2..][1..] == [];
    assert RestartCount(Next(w2, base, run[2]), base, []) == 0;
    assert RestartCount(w2, base, run[2..]) == 1;
    assert RestartCount(w1, base, run[1..]) == 2;
  }

  lemma LearnsBeside(w: World, base: Desired, ids: seq<string>)
    requires FixedSpec(base) && HasPin(w.c.auth) && |ids| > 0 && ids[0] !in w.c.auth.profiles
    requires forall id :: id in w.c.auth.order[CANONICAL] ==> id in ids
    ensures Restarting(w, base, Discovery(ids))
    ensures var w' := Next(w, base, Discovery(ids)).c.auth;
            SamePin(w.c.auth, w') && w'.profiles == w.c.auth.profiles[ids[0] := Entry(base)]
  {
    var d := Wanted(base, ids);
    PinStep(w.c.auth, base, ids);
    assert ids[0] in d.profiles && !Holds(w.c.auth.profiles, ids[0], d.profiles[ids[0]]);
    var a1 := w.c.auth.(profiles := Profiles(w.c.auth.profiles, d));
    assert Acceptable(d, CANONICAL) == ids;
    assert Sticky(a1, d, CANONICAL);
    PinnedOne(a1, d, CANONICAL, [ids[0]]);
    assert LEGACY != CANONICAL;
    hide Providers, ProvidersDrift, GatewayOf, DefaultModel;
  }

  lemma MovesPin(w: World, base: Desired, a: string)
    requires FixedSpec(base) && HasPin(w.c.auth) && a !in w.c.auth.order[CANONICAL]
    requires exists id :: id in w.c.auth.order[CANONICAL] && !Backed(w.c.auth.profiles, base, id)
    ensures Restarting(w, base, Discovery([a]))
  {
    var d := Wanted(base, [a]);
    var a1 := w.c.auth.(profiles := Profiles(w.c.auth.profiles, d));
    ProfilesLearn(w.c.auth.profiles, base, [a]);
    var id :| id in w.c.auth.order[CANONICAL] && !Backed(w.c.auth.profiles, base, id);
    assert !StillValid(a1.profiles, d, CANONICAL, id);
    assert !Sticky(a1, d, CANONICAL);
    assert w.c.auth.order[CANONICAL] != d.order[CANONICAL] by { assert a in d.order[CANONICAL]; }
    hide ProvidersDrift, GatewayOf, DefaultModel;
  }

  lemma Pins(w: World, base: Desired) returns (pins: seq<string>, a: string)
    requires LoosePin(w, base)
    ensures CANONICAL in w.c.auth.order && pins == w.c.auth.order[CANONICAL]
    ensures a !in pins && a !in w.c.auth.profiles
  {
    hide Restarting, Locked;
    pins := w.c.auth.order[CANONICAL];
    a := FreshName((set id | id in pins) + w.c.auth.profiles.Keys);
  }

  /** One more restart than there are preferred credentials bounds every run of a gateway exactly when it is calm, has no
      pin, or has one that written profiles vouch for. */
  lemma OneMoreExactly(w: World, base: Desired)
    requires FixedSpec(base)
    ensures (forall run: seq<Step> :: RestartCount(w, base, run) <= 1 + |Preferred(run)|) <==> !LoosePin(w, base)
  {
    hide Restarting, Calm, Locked, HasPin, FixedSpec, Preferred, RestartCount;
    if LoosePin(w, base) {
      var pins, a := Pins(w, base);
      var run := ThreeRestarts(w, base, [a] + pins);
      assert RestartCount(w, base, run) > 1 + |Preferred(run)|;
    } else {
      UnpinnedStep(w, base, {});
      forall run: seq<Step> ensures RestartCount(w, base, run) <= 1 + |Preferred(run)| {
        if Calm(w, base, {}) {
          CalmRun(w, base, run, {});
          assert Preferred(run) - {} == Preferred(run);
        } else {
          PlainRun(w, base, run);
        }
      }
    }
  }

  /** The passes of a spec that leaves the pin open: with a credential to pin, without one, or ending in an error. */
  lemma DiscoveredStateIsPinned(s: GatewaySpec, extras: map<string, Block>, firstModel: string, token: string,
                                ids: seq<string>)
    requires s.Discovers()
    ensures var base := Base(s, extras, firstModel, token);
            DesiredState(s, extras, firstModel, token, ids)
            == if |ids| > 0 && ids[0] != "" then Some(Wanted(base, ids))
               else if |ids| > 0 || s.Mode() == API_KEY then Some(base)
               else None
    ensures FixedSpec(Base(s, extras, firstModel, token)) <==> LEGACY !in extras
  {
  }
}
