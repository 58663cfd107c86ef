/** Projection of ModelConnection keys: the derived Secret and the provider blocks that refer to it are written in
    two steps of a reconcile, and the gateway must be able to boot after each. */
module ModelConnections {
  import opened Values
  import opened Text
  import ModelAuth
  import OpenClawConfig
  import Restarts

  datatype Kind = Endpoint | Subscription | ApiKey

  /** A published connection; `key` is the API key its Secret reference resolves to. */
  datatype Connection = Connection(
    kind: Kind, baseUrl: string, api: string, models: seq<Restarts.Model>, key: Option<string>, offered: bool)

  /** What stays put while workstations swap models: the connections, and whether the namespace acts for a tenant. */
  datatype Catalog = Catalog(conns: map<string, Connection>, gated: bool)

  function UpperOrUnderscore(c: char): char {
    if 'a' <= c <= 'z' then c - 'a' + 'A' else if 'A' <= c <= 'Z' || '0' <= c <= '9' then c else '_'
  }

  function EnvName(conn: string): string {
    if |conn| == 0 then "" else [UpperOrUnderscore(conn[0])] + EnvName(conn[1..])
  }

  const PREFIX := "MODELCONN_"

  function EnvVar(conn: string): string { PREFIX + EnvName(conn) + "_API_KEY" }

  function Reference(v: string): Json { Str("${" + v + "}") }

  predicate Renderable(cat: Catalog, conn: string) {
    && conn in cat.conns
    && (cat.gated ==> cat.conns[conn].offered)
    && cat.conns[conn].kind.Endpoint?
    && cat.conns[conn].baseUrl != ""
  }

  predicate Keyed(cat: Catalog, conn: string) { Renderable(cat, conn) && cat.conns[conn].key.Some? }

  function BlockOf(cat: Catalog, conn: string): Block
    requires conn in cat.conns
  {
    var c := cat.conns[conn];
    map["baseUrl" := Str(c.baseUrl),
        "api" := Str(if c.api == "" then "openai-completions" else c.api),
        "models" := Arr(seq(|c.models|, i requires 0 <= i < |c.models| =>
          Obj(map["id" := Str(c.models[i].id),
                  "name" := Str(if c.models[i].name == "" then c.models[i].id else c.models[i].name)])))]
    + if c.key.Some? then map["apiKey" := Reference(EnvVar(conn))] else map[]
  }

  /** Referenced connections, and those whose key is projected already. */
  function Carried(cat: Catalog, refs: set<string>, projected: set<string>): set<string> {
    refs + set conn | conn in cat.conns && EnvVar(conn) in projected
  }

  function Rendered(cat: Catalog, refs: set<string>, projected: set<string>): set<string> {
    set conn | conn in Carried(cat, refs, projected) && Renderable(cat, conn)
  }

  function Providers(cat: Catalog, refs: set<string>, projected: set<string>): map<string, Block> {
    map conn | conn in Rendered(cat, refs, projected) :: BlockOf(cat, conn)
  }

  function Keys(cat: Catalog, refs: set<string>, projected: set<string>): set<string> {
    set conn | conn in Rendered(cat, refs, projected) && Keyed(cat, conn) :: EnvVar(conn)
  }

  /** The variable of a connection: its name in capitals, anything but letters and digits replaced. */
  lemma EnvVarReads(conn: string)
    ensures |EnvName(conn)| == |conn| && EnvVar(conn) == "MODELCONN_" + EnvName(conn) + "_API_KEY"
    ensures forall i :: 0 <= i < |conn| ==>
              var c, v := conn[i], EnvName(conn)[i];
              if 'a' <= c <= 'z' then v as int - 'A' as int == c as int - 'a' as int
              else if 'A' <= c <= 'Z' || '0' <= c <= '9' then v == c else v == '_'
  {
    EnvNameAt(conn);
  }

  /** The block of a connection, key by key. */
  lemma BlockReads(cat: Catalog, conn: string)
    requires conn in cat.conns
    ensures var c, b := cat.conns[conn], Obj(BlockOf(cat, conn));
            && Get(b, "baseUrl") == Str(c.baseUrl)
            && Get(b, "api") == Str(if c.api == "" then "openai-completions" else c.api)
            && Get(b, "apiKey") == (if c.key.Some? then Str("${" + EnvVar(conn) + "}") else Null)
            && Restarts.Serves(Get(b, "models"), c.models, Null)
  {
    hide EnvVar;
    Restarts.BlockKeysDiffer();
    Restarts.ModelKeysDiffer();
  }

  /** Which connections get a block: those in use or carried over that exist, are offered where that matters, are
      endpoints and have a base URL; and a key is projected for those of them that have one. */
  lemma RenderedAre(cat: Catalog, refs: set<string>, projected: set<string>, conn: string)
    ensures conn in Providers(cat, refs, projected)
       <==> && (conn in refs || EnvVar(conn) in projected) && conn in cat.conns && (!cat.gated || cat.conns[conn].offered)
            && cat.conns[conn].kind == Endpoint && cat.conns[conn].baseUrl != ""
    ensures conn in Providers(cat, refs, projected) ==> Providers(cat, refs, projected)[conn] == BlockOf(cat, conn)
    ensures forall v :: v in Keys(cat, refs, projected) <==>
              (exists c :: c in Providers(cat, refs, projected) && cat.conns[c].key.Some? && EnvVar(c) == v)
  {
    hide EnvVar, BlockOf;
  }

  function KeyOf(cat: Catalog, conn: string): Option<string> { if conn in cat.conns then cat.conns[conn].key else None }

  /** The last by name of the connections whose key goes under the variable. */
  ghost predicate LastKeyed(cat: Catalog, conns: set<string>, v: string, conn: string) {
    && conn in conns && Keyed(cat, conn) && EnvVar(conn) == v
    && forall c :: c in conns && Keyed(cat, c) && EnvVar(c) == v ==> Leq(c, conn)
  }

  /** The value under a projected name is the key of the last rendered connection of that variable. */
  ghost predicate Genuine(cat: Catalog, rendered: set<string>, data: map<string, string>) {
    forall v :: v in data ==> exists conn :: LastKeyed(cat, rendered, v, conn) && KeyOf(cat, conn) == Some(data[v])
  }

  function Vars(cat: Catalog, conns: set<string>): set<string> {
    set conn | conn in conns && Keyed(cat, conn) :: EnvVar(conn)
  }

  /** Visits the connections in the order of their names. */
  method CollectModelConnections(cat: Catalog, refs: set<string>, projected: set<string>)
    returns (providers: map<string, Block>, data: map<string, string>)
    ensures providers == Providers(cat, refs, projected)
    ensures data.Keys == Keys(cat, refs, projected)
    ensures Genuine(cat, Rendered(cat, refs, projected), data)
  {
    hide BlockOf, EnvVar, Leq, LastKeyed, Vars;
    var wanted := CarryOver(cat, refs, projected);
    var names := SortedListing(wanted);
    providers, data := map[], map[];
    ghost var done: set<string> := {};
    NoVars(cat);
    for i := 0 to |names|
      invariant forall n :: n in done <==> n in names[..i]
      invariant providers.Keys == set conn | conn in done && Renderable(cat, conn)
      invariant forall conn :: conn in providers ==> providers[conn] == BlockOf(cat, conn)
      invariant data.Keys == Vars(cat, done) && Genuine(cat, done, data)
    {
      var conn := names[i];
      assert names[..i + 1] == names[..i] + [conn];
      forall c | c in done ensures Leq(c, conn) {
        var k :| 0 <= k < i && names[k] == c;
      }
      GenuineStep(cat, done, data, conn);
      done := done + {conn};
      if Renderable(cat, conn) {
        providers := providers[conn := BlockOf(cat, conn)];
        if cat.conns[conn].key.Some? {
          data := data[EnvVar(conn) := cat.conns[conn].key.value];
        }
      }
    }
    assert names[..|names|] == names;
    assert done == wanted;
    SameVars(cat, refs, projected, data);
  }

  lemma NoVars(cat: Catalog)
    ensures Vars(cat, {}) == {} && Genuine(cat, {}, map[])
  {
  }

  lemma VarsStep(cat: Catalog, done: set<string>, conn: string)
    ensures Vars(cat, done + {conn}) == Vars(cat, done) + if Keyed(cat, conn) then {EnvVar(conn)} else {}
  {
    hide EnvVar, Keyed;
  }

  /** The next connection's key displaces that of an earlier one under the same variable. */
  lemma GenuineStep(cat: Catalog, done: set<string>, data: map<string, string>, conn: string)
    requires data.Keys == Vars(cat, done) && Genuine(cat, done, data) && forall c :: c in done ==> Leq(c, conn)
    ensures !Keyed(cat, conn) ==> Vars(cat, done + {conn}) == Vars(cat, done) && Genuine(cat, done + {conn}, data)
    ensures Keyed(cat, conn) ==>
              var data' := data[EnvVar(conn) := cat.conns[conn].key.value];
              Vars(cat, done + {conn}) == data'.Keys && Genuine(cat, done + {conn}, data')
  {
    hide EnvVar, Leq, LastKeyed, Vars;
    VarsStep(cat, done, conn);
    if Keyed(cat, conn) {
      var data' := data[EnvVar(conn) := cat.conns[conn].key.value];
      forall v | v in data' ensures exists c :: LastKeyed(cat, done + {conn}, v, c) && KeyOf(cat, c) == Some(data'[v]) {
        if v == EnvVar(conn) {
          LastIsNew(cat, done, conn);
        } else {
          var c :| LastKeyed(cat, done, v, c) && KeyOf(cat, c) == Some(data[v]);
          LastStays(cat, done, conn, v, c);
        }
      }
    } else {
      forall v | v in data ensures exists c :: LastKeyed(cat, done + {conn}, v, c) && KeyOf(cat, c) == Some(data[v]) {
        var c :| LastKeyed(cat, done, v, c) && KeyOf(cat, c) == Some(data[v]);
        LastStays(cat, done, conn, v, c);
      }
    }
  }

  lemma LastIsNew(cat: Catalog, done: set<string>, conn: string)
    requires Keyed(cat, conn) && forall c :: c in done ==> Leq(c, conn)
    ensures LastKeyed(cat, done + {conn}, EnvVar(conn), conn)
  {
    hide EnvVar, Leq, Keyed;
    LeqReflexive(conn);
  }

  lemma LastStays(cat: Catalog, done: set<string>, conn: string, v: string, c: string)
    requires LastKeyed(cat, done, v, c) && (Keyed(cat, conn) ==> v != EnvVar(conn))
    ensures LastKeyed(cat, done + {conn}, v, c)
  {
    hide EnvVar, Leq, Keyed;
  }

  lemma LeqReflexive(s: string)
    ensures Leq(s, s)
  {
    LeqTotal(s, s);
  }

  lemma SameVars(cat: Catalog, refs: set<string>, projected: set<string>, data: map<string, string>)
    requires data.Keys == Vars(cat, Carried(cat, refs, projected)) && Genuine(cat, Carried(cat, refs, projected), data)
    ensures data.Keys == Keys(cat, refs, projected) && Genuine(cat, Rendered(cat, refs, projected), data)
  {
    hide EnvVar, Carried, Leq;
    var all, rendered := Carried(cat, refs, projected), Rendered(cat, refs, projected);
    forall v | v in data ensures exists c :: LastKeyed(cat, rendered, v, c) && KeyOf(cat, c) == Some(data[v]) {
      var c :| LastKeyed(cat, all, v, c) && KeyOf(cat, c) == Some(data[v]);
      assert LastKeyed(cat, rendered, v, c);
    }
  }

  /** Two names share a variable exactly when they differ only in case and in what is neither letter nor digit. */
  lemma {:induction false} EnvVarSharedExactly(a: string, b: string)
    ensures EnvVar(a) == EnvVar(b)
       <==> |a| == |b| && forall i :: 0 <= i < |a| ==> UpperOrUnderscore(a[i]) == UpperOrUnderscore(b[i])
  {
    EnvNameAt(a);
    EnvNameAt(b);
    if EnvVar(a) == EnvVar(b) {
      var n := |EnvVar(a)|;
      assert EnvName(a) == EnvVar(a)[|PREFIX|..n - |"_API_KEY"|] && EnvName(b) == EnvVar(b)[|PREFIX|..n - |"_API_KEY"|];
    }
  }

  lemma {:induction false} EnvNameAt(conn: string)
    ensures |EnvName(conn)| == |conn|
    ensures forall i :: 0 <= i < |conn| ==> EnvName(conn)[i] == UpperOrUnderscore(conn[i])
  {
    if |conn| > 0 { EnvNameAt(conn[1..]); }
  }

  /** Every rendered block's reference stands for its own connection's key exactly when no two rendered connections of
      different keys share a variable. */
  lemma OwnKeysExactly(cat: Catalog, rendered: set<string>, data: map<string, string>)
    requires data.Keys == Vars(cat, rendered) && Genuine(cat, rendered, data)
    ensures (forall conn :: conn in rendered && Keyed(cat, conn) ==>
               EnvVar(conn) in data && KeyOf(cat, conn) == Some(data[EnvVar(conn)]))
       <==> (forall c, d :: c in rendered && d in rendered && Keyed(cat, c) && Keyed(cat, d) && EnvVar(c) == EnvVar(d) ==>
               KeyOf(cat, c) == KeyOf(cat, d))
  {
    hide EnvVar, Renderable, Leq;
    hide Keyed;
    forall conn | conn in rendered && Keyed(cat, conn) ensures EnvVar(conn) in data {}
    if forall c, d :: c in rendered && d in rendered && Keyed(cat, c) && Keyed(cat, d) && EnvVar(c) == EnvVar(d) ==>
         KeyOf(cat, c) == KeyOf(cat, d)
    {
      forall conn | conn in rendered && Keyed(cat, conn) ensures KeyOf(cat, conn) == Some(data[EnvVar(conn)]) {
        var v := EnvVar(conn);
        var c :| LastKeyed(cat, rendered, v, c) && KeyOf(cat, c) == Some(data[v]);
      }
    }
  }

  method CarryOver(cat: Catalog, refs: set<string>, projected: set<string>) returns (wanted: set<string>)
    ensures wanted == Carried(cat, refs, projected)
  {
    hide EnvVar;
    wanted := refs;
    var todo := cat.conns.Keys;
    while todo != {}
      invariant todo <= cat.conns.Keys
      invariant wanted == refs + set conn | conn in cat.conns && conn !in todo && EnvVar(conn) in projected
      decreases todo
    {
      var conn :| conn in todo;
      if EnvVar(conn) in projected { wanted := wanted + {conn}; }
      todo := todo - {conn};
    }
  }

  // ----- booting -----

  predicate ConnVar(v: string) { PREFIX <= v }

  predicate Refers(block: Json, v: string) { ConnVar(v) && Get(block, "apiKey") == Reference(v) }

  /** No provider block refers to a key the pod does not carry. */
  ghost predicate Boots(providers: Block, projected: set<string>) {
    forall id, v :: id in providers && Refers(providers[id], v) ==> v in projected
  }

  lemma ReferenceInjective(v: string, w: string)
    requires Reference(v) == Reference(w)
    ensures v == w
  {
    var a, b := "${" + v + "}", "${" + w + "}";
    assert v == a[2..|a| - 1] && w == b[2..|b| - 1];
  }

  lemma BlockRefers(cat: Catalog, conn: string, v: string)
    requires Renderable(cat, conn)
    ensures Refers(Obj(BlockOf(cat, conn)), v) <==> Keyed(cat, conn) && v == EnvVar(conn)
  {
    assert |"apiKey"| == 6 && |"models"| == 6 && "apiKey"[0] != "models"[0] && |"baseUrl"| == 7 && |"api"| == 3;
    if Refers(Obj(BlockOf(cat, conn)), v) { ReferenceInjective(v, EnvVar(conn)); }
  }

  /** The canonical provider block never refers to a connection's key. */
  lemma CanonicalRefersToNone(s: Restarts.GatewaySpec, v: string)
    ensures !Refers(Obj(Restarts.ProviderBlock(s)), v)
  {
    CanonicalKey(s);
    if ConnVar(v) {
      assert v[0] == PREFIX[0] == 'M';
      assert Reference(v).s[2] == 'M' && "${OPENAI_API_KEY}"[2] == 'O';
    }
  }

  lemma CanonicalKey(s: Restarts.GatewaySpec)
    ensures Get(Obj(Restarts.ProviderBlock(s)), "apiKey") in {Null, Str("${OPENAI_API_KEY}")}
  {
    assert "apiKey" != "models" by { assert "apiKey"[0] != "models"[0]; }
    assert |"apiKey"| == 6 && |"baseUrl"| == 7 && |"api"| == 3;
  }

  // ----- runs -----

  /** `snapshot`: the references the reconcile under way has read. */
  datatype State = State(
    providers: Block, managed: set<string>, projected: set<string>, refs: set<string>, snapshot: Option<set<string>>)

  datatype Step =
    | Swap(refs: set<string>)                   // workstations change what they refer to
    | Project                                   // a reconcile reads its snapshot and projects the keys
    | Write(d: ModelAuth.Desired)               // the same reconcile writes the provider blocks, if a pod is ready
    | Reread(d: ModelAuth.Desired)              // it lists the references anew for that, and they may have changed
    | End                                       // it ends, or the operator restarts

  /** The desired state a write carries: this reconcile's connections over some canonical block. */
  ghost predicate Carries(cat: Catalog, s: State, d: ModelAuth.Desired) {
    && s.snapshot.Some?
    && d.extras == Providers(cat, s.snapshot.value, s.projected)
    && forall v :: !Refers(Obj(d.provider), v)
  }

  ghost predicate Enabled(cat: Catalog, s: State, step: Step) {
    match step
    case Write(d) => Carries(cat, s, d)
    case Reread(d) => d.extras == Providers(cat, s.refs, s.projected) && forall v :: !Refers(Obj(d.provider), v)
    case _ => true
  }

  function Next(cat: Catalog, s: State, step: Step): State {
    match step
    case Swap(refs) => s.(refs := refs)
    case Project => s.(projected := Keys(cat, s.refs, s.projected), snapshot := Some(s.refs))
    case Write(d) => s.(providers := ModelAuth.Providers(s.providers, s.managed, d), managed := ModelAuth.Managed(d))
    case Reread(d) => s.(providers := ModelAuth.Providers(s.providers, s.managed, d), managed := ModelAuth.Managed(d))
    case End => s.(snapshot := None)
  }

  /** The steps are those of the scripts: a write leaves the providers and the sidecar as the convergence does, a
      projection the keys the connections need, and remembers what it was for; nothing else changes anything but its own. */
  lemma StepsAre(cat: Catalog, s: State, c: OpenClawConfig.Config, d: ModelAuth.Desired, refs: set<string>)
    requires c.providers == s.providers
    ensures forall step :: step == Write(d) || step == Reread(d) ==>
              Next(cat, s, step) == State(ModelAuth.Converge(c, s.managed, d).providers, ModelAuth.Managed(d), s.projected, s.refs, s.snapshot)
    ensures Next(cat, s, Project) == State(s.providers, s.managed, Keys(cat, s.refs, s.projected), s.refs, Some(s.refs))
    ensures Next(cat, s, Swap(refs)) == State(s.providers, s.managed, s.projected, refs, s.snapshot)
    ensures Next(cat, s, End) == State(s.providers, s.managed, s.projected, s.refs, None)
  {
    hide ModelAuth.Providers, Keys;
  }

  ghost predicate Backed(cat: Catalog, projected: set<string>) {
    forall v :: v in projected ==> exists conn :: Keyed(cat, conn) && EnvVar(conn) == v
  }

  ghost predicate Covered(cat: Catalog, refs: set<string>, projected: set<string>) {
    forall conn :: conn in refs && Keyed(cat, conn) ==> EnvVar(conn) in projected
  }

  ghost predicate Inv(cat: Catalog, s: State) {
    && Boots(s.providers, s.projected)
    && Backed(cat, s.projected)
    && (s.snapshot.Some? ==> Covered(cat, s.snapshot.value, s.projected))
  }

  /** Carry-over: nothing projected is ever withdrawn, and everything referenced is projected. */
  lemma ProjectGrows(cat: Catalog, refs: set<string>, projected: set<string>)
    requires Backed(cat, projected)
    ensures projected <= Keys(cat, refs, projected)
    ensures Backed(cat, Keys(cat, refs, projected))
    ensures Covered(cat, refs, Keys(cat, refs, projected))
  {
    forall v | v in projected ensures v in Keys(cat, refs, projected) {
      var conn :| Keyed(cat, conn) && EnvVar(conn) == v;
      assert conn in Rendered(cat, refs, projected);
    }
    forall conn | conn in refs && Keyed(cat, conn) ensures EnvVar(conn) in Keys(cat, refs, projected) {
      assert conn in Rendered(cat, refs, projected);
    }
  }

  /** What a write with the references `refs` leaves bootable: exactly what was projected for them before.
      This is why one reconcile must not read the references twice. */
  lemma WriteBootsExactly(cat: Catalog, s: State, refs: set<string>, d: ModelAuth.Desired)
    requires Boots(s.providers, s.projected)
    requires d.extras == Providers(cat, refs, s.projected)
    requires forall v :: !Refers(Obj(d.provider), v)
    ensures Boots(ModelAuth.Providers(s.providers, s.managed, d), s.projected)
       <==> forall conn :: conn in refs && conn != ModelAuth.CANONICAL && Keyed(cat, conn) ==> EnvVar(conn) in s.projected
  {
    var after := ModelAuth.Providers(s.providers, s.managed, d);
    forall id, v | id in after && Refers(after[id], v)
      ensures v in s.projected
           || (id in refs && id != ModelAuth.CANONICAL && Keyed(cat, id) && EnvVar(id) == v)
    {
      WrittenBlock(s.providers, s.managed, d, id);
      if id in d.extras && id != ModelAuth.CANONICAL {
        BlockRefers(cat, id, v);
      }
    }
    forall conn | conn in refs && conn != ModelAuth.CANONICAL && Keyed(cat, conn)
      ensures conn in after && Refers(after[conn], EnvVar(conn))
    {
      assert conn in d.extras;
      ExtraWritten(s.providers, s.managed, d, conn);
      BlockRefers(cat, conn, EnvVar(conn));
    }
  }

  /** Where a block of the written document comes from. */
  lemma WrittenBlock(providers: Block, managed: set<string>, d: ModelAuth.Desired, id: string)
    requires id in ModelAuth.Providers(providers, managed, d)
    ensures var block := ModelAuth.Providers(providers, managed, d)[id];
            if id == ModelAuth.CANONICAL then block == Obj(d.provider)
            else if id in d.extras then block == Obj(d.extras[id])
            else id in providers && block == providers[id]
  {
  }

  lemma ExtraWritten(providers: Block, managed: set<string>, d: ModelAuth.Desired, id: string)
    requires id in d.extras && id != ModelAuth.CANONICAL
    ensures ModelAuth.Holds(ModelAuth.Providers(providers, managed, d), id, d.extras[id])
  {
    assert id in ModelAuth.Extras(d);
  }

  /** Every key the references as they are now need has been projected. */
  ghost predicate Prepared(cat: Catalog, s: State) {
    forall conn :: conn in s.refs && conn != ModelAuth.CANONICAL && Keyed(cat, conn) ==> EnvVar(conn) in s.projected
  }

  /** A step keeps the invariant exactly when it is no write with references read anew, or those are prepared for. */
  lemma StepKeepsInv(cat: Catalog, s: State, step: Step)
    requires Inv(cat, s) && Enabled(cat, s, step)
    ensures Inv(cat, Next(cat, s, step)) <==> (step.Reread? ==> Prepared(cat, s))
    ensures Boots(Next(cat, s, step).providers, Next(cat, s, step).projected) <==> (step.Reread? ==> Prepared(cat, s))
  {
    hide EnvVar, Keyed, Refers;
    match step
    case Project => ProjectGrows(cat, s.refs, s.projected);
    case Write(d) => WriteBootsExactly(cat, s, s.snapshot.value, d);
    case Reread(d) => WriteBootsExactly(cat, s, s.refs, d);
    case _ =>
  }

  ghost predicate RunOf(cat: Catalog, s: State, steps: seq<Step>)
    decreases steps
  {
    |steps| > 0 ==> Enabled(cat, s, steps[0]) && RunOf(cat, Next(cat, s, steps[0]), steps[1..])
  }

  function After(cat: Catalog, s: State, steps: seq<Step>): State
    decreases steps
  {
    if |steps| == 0 then s else After(cat, Next(cat, s, steps[0]), steps[1..])
  }

  ghost predicate BootsThroughout(cat: Catalog, s: State, steps: seq<Step>)
    decreases steps
  {
    Boots(s.providers, s.projected) && (|steps| > 0 ==> BootsThroughout(cat, Next(cat, s, steps[0]), steps[1..]))
  }

  /** Whenever a run reads the references anew, their keys have been projected. */
  ghost predicate ReadsPrepared(cat: Catalog, s: State, steps: seq<Step>)
    decreases steps
  {
    |steps| > 0 ==> (steps[0].Reread? ==> Prepared(cat, s)) && ReadsPrepared(cat, Next(cat, s, steps[0]), steps[1..])
  }

  /** The persisted document boots on the projected keys in every state of a run, between reconciles or within one,
      however workstations change their references and wherever reconciles break off, if and only if no write reads
      references whose keys have not been projected. */
  lemma {:induction false} BootsExactly(cat: Catalog, s: State, steps: seq<Step>)
    requires Inv(cat, s) && RunOf(cat, s, steps)
    ensures BootsThroughout(cat, s, steps) <==> ReadsPrepared(cat, s, steps)
    decreases steps
  {
    hide Next, Enabled, Boots, Backed, Covered, Prepared;
    if |steps| > 0 {
      StepKeepsInv(cat, s, steps[0]);
      var s' := Next(cat, s, steps[0]);
      if Inv(cat, s') {
        BootsExactly(cat, s', steps[1..]);
      } else {
        assert !Boots(s'.providers, s'.projected);
        assert !BootsThroughout(cat, s', steps[1..]);
      }
    }
  }

  /** In particular it always boots when each reconcile writes what it read for the projection. */
  lemma {:induction false} AlwaysBoots(cat: Catalog, s: State, steps: seq<Step>)
    requires Inv(cat, s) && RunOf(cat, s, steps) && forall step :: step in steps ==> !step.Reread?
    ensures Boots(After(cat, s, steps).providers, After(cat, s, steps).projected)
    decreases steps
  {
    hide Next, Enabled, Boots, Backed, Covered, Prepared;
    if |steps| > 0 {
      StepKeepsInv(cat, s, steps[0]);
      AlwaysBoots(cat, Next(cat, s, steps[0]), steps[1..]);
    }
  }

  /** A gateway that has rendered no connection yet. */
  ghost predicate Fresh(s: State) {
    s.projected == {} && s.snapshot.None? && forall id, v :: id in s.providers ==> !Refers(s.providers[id], v)
  }

  /** From a fresh gateway: what every run does, and that it boots throughout when no write reads the references anew. */
  lemma FreshGateway(cat: Catalog, s: State, steps: seq<Step>)
    requires Fresh(s) && RunOf(cat, s, steps)
    ensures BootsThroughout(cat, s, steps) <==> ReadsPrepared(cat, s, steps)
    ensures (forall step :: step in steps ==> !step.Reread?) ==> BootsThroughout(cat, s, steps)
  {
    BootsExactly(cat, s, steps);
    if forall step :: step in steps ==> !step.Reread? { NothingReread(cat, s, steps); }
  }

  lemma {:induction false} NothingReread(cat: Catalog, s: State, steps: seq<Step>)
    requires forall step :: step in steps ==> !step.Reread?
    ensures ReadsPrepared(cat, s, steps)
    decreases steps
  {
    hide Next, Prepared;
    if |steps| > 0 { NothingReread(cat, Next(cat, s, steps[0]), steps[1..]); }
  }

  /** The bad run: a workstation turns to a keyed connection between the two readings of one reconcile. */
  lemma SwapBetweenReadsWedges(cat: Catalog, s: State, conn: string, d: ModelAuth.Desired)
    requires Keyed(cat, conn) && conn != ModelAuth.CANONICAL
    requires Fresh(s) && s.refs == {}
    requires d.extras == Providers(cat, {conn}, {}) && forall v :: !Refers(Obj(d.provider), v)
    ensures Inv(cat, s) && RunOf(cat, s, [Project, Swap({conn}), Reread(d)])
    ensures !Boots(After(cat, s, [Project, Swap({conn}), Reread(d)]).providers, After(cat, s, [Project, Swap({conn}), Reread(d)]).projected)
  {
    hide EnvVar, Keyed, Refers, Providers;
    var s1 := Next(cat, s, Project);
    var s2 := Next(cat, s1, Swap({conn}));
    NothingProjected(cat);
    StepKeepsInv(cat, s, Project);
    assert Enabled(cat, s2, Reread(d));
    StepKeepsInv(cat, s1, Swap({conn}));
    StepKeepsInv(cat, s2, Reread(d));
    assert !Prepared(cat, s2);
    AfterThree(cat, s, Project, Swap({conn}), Reread(d));
  }

  lemma AfterThree(cat: Catalog, s: State, a: Step, b: Step, c: Step)
    ensures After(cat, s, [a, b, c]) == Next(cat, Next(cat, Next(cat, s, a), b), c)
    ensures Enabled(cat, s, a) && Enabled(cat, Next(cat, s, a), b) && Enabled(cat, Next(cat, Next(cat, s, a), b), c)
        ==> RunOf(cat, s, [a, b, c])
  {
    hide Next, Enabled;
    var none: seq<Step> := [];
    assert [a, b, c][1..] == [b, c] && [b, c][1..] == [c] && [c][1..] == none;
    var s1 := Next(cat, s, a);
    var s2 := Next(cat, s1, b);
    assert After(cat, s2, [c]) == After(cat, Next(cat, s2, c), none);
    assert After(cat, s1, [b, c]) == After(cat, s2, [c]);
    assert RunOf(cat, Next(cat, s2, c), none);
    assert Enabled(cat, s2, c) ==> RunOf(cat, s2, [c]);
    assert Enabled(cat, s1, b) && Enabled(cat, s2, c) ==> RunOf(cat, s1, [b, c]);
  }

  lemma NothingProjected(cat: Catalog)
    ensures Keys(cat, {}, {}) == {}
  {
  }

  /** A completed reconcile gives every renderable connection its snapshot refers to a provider block, and that block
      has its key: no agent is left on a lane nothing serves. */
  lemma NoDeadLane(cat: Catalog, s: State, d: ModelAuth.Desired, conn: string)
    requires Inv(cat, s) && Carries(cat, s, d)
    requires conn in s.snapshot.value && conn != ModelAuth.CANONICAL && Renderable(cat, conn)
    ensures ModelAuth.Holds(Next(cat, s, Write(d)).providers, conn, BlockOf(cat, conn))
    ensures Keyed(cat, conn) ==> EnvVar(conn) in s.projected
  {
    hide BlockOf, EnvVar, Keys;
    assert conn in Rendered(cat, s.snapshot.value, s.projected);
    ExtraWritten(s.providers, s.managed, d, conn);
  }

  // ----- the workstation's side -----

  /** A workstation's choice of model. */
  datatype ModelSpec = ModelSpec(provider: string, modelName: string, connectionRef: string)

  /** The model a connection would serve: the named one, else the first the connection lists. */
  ghost function ConnectionModel(cat: Catalog, m: ModelSpec): string
    requires m.connectionRef in cat.conns
  {
    var models := cat.conns[m.connectionRef].models;
    if m.modelName in {"", "auto"} && |models| > 0 then models[0].id else m.modelName
  }

  /** The agent's model string keys into the connection's provider block. */
  ghost predicate ThroughConnection(cat: Catalog, m: ModelSpec) {
    && m.connectionRef != "" && m.connectionRef in cat.conns && cat.conns[m.connectionRef].kind.Endpoint?
    && ConnectionModel(cat, m) !in {"", "auto"}
  }

  /** The two parts of the model string, provider id and model name. */
  method ChooseModel(cat: Catalog, m: ModelSpec) returns (provider: string, model: string)
    ensures ThroughConnection(cat, m) ==> provider == m.connectionRef && model == ConnectionModel(cat, m)
    ensures !ThroughConnection(cat, m) && m.modelName == "" ==> provider == "openai" && model == "gpt-5.4"
    ensures !ThroughConnection(cat, m) && m.modelName != "" ==>
              model == m.modelName && provider == if m.provider == ModelAuth.LEGACY then ModelAuth.CANONICAL else m.provider
  {
    provider, model := "openai", "gpt-5.4";
    if m.modelName != "" {
      provider, model := if m.provider == ModelAuth.LEGACY then ModelAuth.CANONICAL else m.provider, m.modelName;
    }
    if m.connectionRef != "" && m.connectionRef in cat.conns {
      var conn := cat.conns[m.connectionRef];
      if conn.kind.Endpoint? {
        var name := m.modelName;
        if name == "" || name == "auto" {
          if |conn.models| > 0 { name := conn.models[0].id; }
        }
        if !(name == "" || name == "auto") {
          provider, model := m.connectionRef, name;
        }
      }
    }
  }

  /** A block of that id was there before and no write takes it away. */
  predicate Left(providers: Block, managed: set<string>, id: string) {
    id in providers && !(Truthy(providers[id]) && (id == ModelAuth.LEGACY || id in managed))
  }

  /** A completed reconcile leaves an agent that goes through a connection without a provider block, a dead lane, exactly
      when the connection has no base URL or is not offered here, and no block of its name was left from elsewhere. */
  lemma DeadLaneExactly(cat: Catalog, s: State, d: ModelAuth.Desired, m: ModelSpec)
    requires Carries(cat, s, d) && ThroughConnection(cat, m) && m.connectionRef in s.snapshot.value
    ensures m.connectionRef !in Next(cat, s, Write(d)).providers
       <==> && m.connectionRef != ModelAuth.CANONICAL
            && (cat.conns[m.connectionRef].baseUrl == "" || (cat.gated && !cat.conns[m.connectionRef].offered))
            && !Left(s.providers, s.managed, m.connectionRef)
  {
    hide BlockOf, EnvVar;
    var conn := m.connectionRef;
    assert conn in Carried(cat, s.snapshot.value, s.projected);
    assert conn in d.extras <==> Renderable(cat, conn);
    if conn in d.extras && conn != ModelAuth.CANONICAL { ExtraWritten(s.providers, s.managed, d, conn); }
  }

  /** The gateway's half-written reconcile, in place. */
  class Gateway {
    var providers: Block
    var managed: set<string>
    /** The derived Secret's data; an empty one is deleted. */
    var secret: Option<map<string, string>>

    function Projected(): set<string>
      reads this
    {
      if secret.Some? then secret.value.Keys else {}
    }

    /** First step: converge the derived Secret to exactly what the connections need. */
    method ProjectKeys(cat: Catalog, refs: set<string>)
      modifies this`secret
      ensures Projected() == Keys(cat, refs, old(Projected()))
      ensures secret.Some? ==> secret.value != map[] && Genuine(cat, Rendered(cat, refs, old(Projected())), secret.value)
    {
      var _, data := CollectModelConnections(cat, refs, Projected());
      secret := if data == map[] then None else Some(data);
    }

    /** Second step: the connections as the desired state of the provider convergence, which is what a write carries. */
    method DesiredConnections(cat: Catalog, refs: set<string>, base: ModelAuth.Desired) returns (d: ModelAuth.Desired)
      ensures d == base.(extras := Providers(cat, refs, Projected()))
      ensures (forall v :: !Refers(Obj(base.provider), v))
                ==> Carries(cat, State(providers, managed, Projected(), refs, Some(refs)), d)
    {
      var blocks, _ := CollectModelConnections(cat, refs, Projected());
      d := base.(extras := blocks);
    }
  }
}
