/** What any interleaving of the document's writers does to it. */
module Interleavings {
  import opened Values
  import opened OpenClawConfig
  import opened AgentMerge
  import ModelAuth
  import Hooks

  datatype Files = Files(cfg: Config, managed: set<string>)

  datatype Writer =
    | Model(d: ModelAuth.Desired)
    | Hook(r: Hooks.Render, inEnv: bool)
    | Agent(s: AgentSpec)

  function Run(w: Writer, f: Files, collate: Collation): Files {
    match w
    case Model(d) => Files(ModelAuth.Converge(f.cfg, f.managed, d), ModelAuth.Managed(d))
    case Hook(r, inEnv) => f.(cfg := Hooks.Converge(f.cfg, r, inEnv))
    case Agent(s) => f.(cfg := Merge(f.cfg, s, collate))
  }

  /** The writer's run would report no change, so it neither restarts nor reloads the gateway. */
  predicate Quiet(w: Writer, f: Files, collate: Collation) {
    match w
    case Model(d) => !ModelAuth.Reports(f.cfg, f.managed, d)
    case Hook(r, inEnv) => Hooks.Converge(f.cfg, r, inEnv) == f.cfg
    case Agent(s) => Merge(f.cfg, s, collate) == f.cfg
  }

  /** One gateway has one desired model state and one hooks decision, though its script may run in a pod that carries
      the token or in one that does not yet; its agents have distinct names. */
  predicate Compatible(v: Writer, w: Writer, collate: Collation) {
    || v == w
    || (v.Agent? && w.Agent? && v.s.id != w.s.id && Separated(v.s, w.s, collate))
    || (v.Hook? && w.Hook? && v.r == w.r)
    || (v.Model? && !w.Model?) || (v.Hook? && !w.Hook?) || (v.Agent? && !w.Agent?)
  }

  predicate Sound(w: Writer) { w.Model? ==> ModelAuth.NoLegacyName(w.d) }

  /** Writers of different kinds own different parts of the document: they commute, and neither changes what the other
      would report. */
  lemma KindsCommute(v: Writer, w: Writer, f: Files, collate: Collation)
    requires (v.Model? && !w.Model?) || (v.Hook? && !w.Hook?) || (v.Agent? && !w.Agent?)
    ensures Run(v, Run(w, f, collate), collate) == Run(w, Run(v, f, collate), collate)
    ensures Quiet(v, Run(w, f, collate), collate) <==> Quiet(v, f, collate)
    ensures Quiet(w, Run(v, f, collate), collate) <==> Quiet(w, f, collate)
  {
  }

  /** A writer's own run leaves it quiet. */
  lemma RunSettles(w: Writer, f: Files, collate: Collation)
    requires Sound(w)
    ensures Quiet(w, Run(w, f, collate), collate)
  {
    match w
    case Model(d) => ModelAuth.IdempotentExactly(f.cfg, f.managed, d);
    case Hook(r, inEnv) => Hooks.HooksSettle(f.cfg.hooks, r, inEnv);
    case Agent(s) => MergeSettles(f.cfg, s, collate);
  }

  /** No writer disturbs another that is quiet. */
  lemma RunKeepsQuiet(w: Writer, v: Writer, f: Files, collate: Collation)
    requires Sound(w) && Compatible(w, v, collate) && Quiet(w, f, collate)
    ensures Quiet(w, Run(v, f, collate), collate)
  {
    if v == w {
      RunSettles(w, f, collate);
    } else if w.Agent? && v.Agent? {
      MergeKeepsSettled(f.cfg, w.s, v.s, collate);
    } else if w.Hook? && v.Hook? {
      Hooks.HooksSettleInAnyPod(f.cfg.hooks, w.r, w.inEnv, v.inEnv);
    } else {
      KindsCommute(w, v, f, collate);
    }
  }

  function RunAll(run: seq<Writer>, f: Files, collate: Collation): Files {
    if |run| == 0 then f else Run(run[|run| - 1], RunAll(run[..|run| - 1], f, collate), collate)
  }

  predicate Team(writers: set<Writer>, collate: Collation) {
    && (forall w :: w in writers ==> Sound(w))
    && (forall v, w :: v in writers && w in writers ==> Compatible(v, w, collate))
  }

  /** What a run leaves of what was quiet before it, and of what ran in it. */
  lemma {:induction false} RunLeavesQuiet(writers: set<Writer>, run: seq<Writer>, f: Files, collate: Collation)
    requires Team(writers, collate) && forall w :: w in run ==> w in writers
    ensures forall w :: w in writers && (w in run || Quiet(w, f, collate)) ==> Quiet(w, RunAll(run, f, collate), collate)
  {
    hide Quiet, Team, Run;
    if |run| > 0 {
      var front, last := run[..|run| - 1], run[|run| - 1];
      var g := RunAll(front, f, collate);
      RunLeavesQuiet(writers, front, f, collate);
      assert run == front + [last];
      forall w | w in writers && (w in run || Quiet(w, f, collate)) ensures Quiet(w, Run(last, g, collate), collate) {
        TeamKeepsQuiet(writers, w, last, g, collate);
      }
    }
  }

  lemma TeamKeepsQuiet(writers: set<Writer>, w: Writer, v: Writer, f: Files, collate: Collation)
    requires Team(writers, collate) && w in writers && v in writers && (w == v || Quiet(w, f, collate))
    ensures Quiet(w, Run(v, f, collate), collate)
  {
    hide Quiet, Run, Compatible, Sound;
    if w == v {
      RunSettles(w, f, collate);
    } else {
      RunKeepsQuiet(w, v, f, collate);
    }
  }

  /** From any files and in any interleaving with any repeats: every writer that has run at least once is quiet.
      Once all have run, no further run of any of them changes the document. */
  lemma SettledForGood(writers: set<Writer>, run: seq<Writer>, f: Files, collate: Collation)
    requires Team(writers, collate)
    requires forall w :: w in run ==> w in writers
    ensures forall w :: w in run ==> Quiet(w, RunAll(run, f, collate), collate)
  {
    hide *;
    RunLeavesQuiet(writers, run, f, collate);
  }

  /** The hooks keys the operator does not own survive every run of all the writers. */
  lemma {:induction false} HooksKeysSurvive(run: seq<Writer>, f: Files, collate: Collation)
    ensures Hooks.Current(RunAll(run, f, collate).cfg.hooks) - Hooks.OWNED == Hooks.Current(f.cfg.hooks) - Hooks.OWNED
  {
    if |run| > 0 {
      var last := run[|run| - 1];
      HooksKeysSurvive(run[..|run| - 1], f, collate);
      if last.Hook? {
        Hooks.OthersKeysSurvive(RunAll(run[..|run| - 1], f, collate).cfg.hooks, last.r, last.inEnv);
      }
    }
  }

  /** Quiet writers write nothing, and stay quiet. */
  lemma {:induction false} QuietRun(writers: set<Writer>, run: seq<Writer>, f: Files, collate: Collation)
    requires Team(writers, collate)
    requires forall w :: w in run ==> w in writers && Quiet(w, f, collate)
    ensures RunAll(run, f, collate).cfg == f.cfg
    ensures forall w :: w in writers && Quiet(w, f, collate) ==> Quiet(w, RunAll(run, f, collate), collate)
  {
    hide Quiet, Compatible, Sound;
    if |run| > 0 {
      var g, last := RunAll(run[..|run| - 1], f, collate), run[|run| - 1];
      QuietRun(writers, run[..|run| - 1], f, collate);
      QuietWritesNothing(last, g, collate);
      forall w | w in writers && Quiet(w, f, collate) ensures Quiet(w, Run(last, g, collate), collate) {
        RunKeepsQuiet(w, last, g, collate);
      }
    }
  }

  lemma QuietWritesNothing(w: Writer, f: Files, collate: Collation)
    requires Quiet(w, f, collate)
    ensures Run(w, f, collate).cfg == f.cfg
  {
    if w.Model? { ModelAuth.QuietWritesNothing(f.cfg, f.managed, w.d); }
  }

  /** De-registering one agent leaves another quiet writer quiet, unless it is an agent of the same browser profile. */
  lemma DeregisterKeepsQuiet(w: Writer, f: Files, id: string, profile: string, collate: Collation)
    requires Quiet(w, f, collate)
    requires w.Agent? ==> w.s.id != id && w.s.profile != profile
    ensures Quiet(w, f.(cfg := Deregister(f.cfg, id, profile)), collate)
  {
    if w.Agent? {
      DeregisterKeepsOthers(f.cfg, w.s, id, profile, collate);
    }
  }

  /** Whatever the others run, an erased agent stays erased, unless an agent with its browser profile runs. */
  lemma {:induction false} RunKeepsErased(run: seq<Writer>, f: Files, id: string, profile: string, collate: Collation)
    requires Erased(f.cfg, id, profile)
    requires forall w :: w in run && w.Agent? ==> w.s.id != id && w.s.profile != profile
    ensures Erased(RunAll(run, f, collate).cfg, id, profile)
  {
    hide Merge, ModelAuth.Providers, ModelAuth.AuthOf, Hooks.ConvergeHooks;
    if |run| > 0 {
      var front, last := run[..|run| - 1], run[|run| - 1];
      assert run == front + [last];
      RunKeepsErased(front, f, id, profile, collate);
      if last.Agent? { MergeKeepsErased(RunAll(front, f, collate).cfg, last.s, id, profile, collate); }
    }
  }

  /** De-registering an agent after any run: however the others then go on, those that ran before and those that merge
      for the first time alike, the agent stays gone and every other writer that ran is quiet, provided no other agent
      has its browser profile. */
  lemma DeregisteredForGood(writers: set<Writer>, run: seq<Writer>, f: Files, s: AgentSpec, after: seq<Writer>, collate: Collation)
    requires Team(writers, collate)
    requires Agent(s) in writers
    requires forall w :: w in run ==> w in writers
    requires forall w :: w in after ==> w in writers && w != Agent(s)
    requires forall w :: (w in run || w in after) && w.Agent? && w != Agent(s) ==> w.s.profile != s.profile
    ensures var gone := RunAll(run, f, collate);
            var files := gone.(cfg := Deregister(gone.cfg, s.id, s.profile));
            && Erased(RunAll(after, files, collate).cfg, s.id, s.profile)
            && forall w :: (w in run || w in after) && w != Agent(s) ==> Quiet(w, RunAll(after, files, collate), collate)
  {
    var g := RunAll(run, f, collate);
    var files := g.(cfg := Deregister(g.cfg, s.id, s.profile));
    SettledForGood(writers, run, f, collate);
    DeregisterErases(g.cfg, s.id, s.profile);
    hide RunAll, Erased, Deregister, Quiet, Separated, Sound;
    forall w | w in writers && w != Agent(s) ensures w.Agent? ==> w.s.id != s.id {
      assert Compatible(w, Agent(s), collate);
    }
    forall w | w in run && w != Agent(s) ensures Quiet(w, files, collate) {
      DeregisterKeepsQuiet(w, g, s.id, s.profile, collate);
    }
    RunKeepsErased(after, files, s.id, s.profile, collate);
    RunLeavesQuiet(writers, after, files, collate);
  }

  // ----- agents that come and go -----

  datatype Event = Ran(w: Writer) | Left(s: AgentSpec)

  /** The writer an event is about. */
  function By(e: Event): Writer { match e case Ran(w) => w case Left(s) => Agent(s) }

  function Happen(e: Event, f: Files, collate: Collation): Files {
    match e
    case Ran(w) => Run(w, f, collate)
    case Left(s) => f.(cfg := Deregister(f.cfg, s.id, s.profile))
  }

  function HappenAll(events: seq<Event>, f: Files, collate: Collation): Files {
    if |events| == 0 then f else Happen(events[|events| - 1], HappenAll(events[..|events| - 1], f, collate), collate)
  }

  /** The last event about a writer. */
  function LastOf(events: seq<Event>, w: Writer): Option<Event> {
    if |events| == 0 then None
    else if By(events[|events| - 1]) == w then Some(events[|events| - 1])
    else LastOf(events[..|events| - 1], w)
  }

  /** What the last event promises: a run that nothing is left to do, a de-registration that nothing is left of the agent;
      a writer without an event has no work if it had none. */
  ghost predicate Kept(w: Writer, last: Option<Event>, before: Files, after: Files, collate: Collation) {
    match last
    case None => Quiet(w, before, collate) ==> Quiet(w, after, collate)
    case Some(Ran(_)) => Quiet(w, after, collate)
    case Some(Left(s)) => Erased(after.cfg, s.id, s.profile)
  }

  lemma RanKeeps(writers: set<Writer>, w: Writer, last: Option<Event>, v: Writer, before: Files, f: Files, collate: Collation)
    requires Team(writers, collate) && w in writers && v in writers && v != w
    requires Kept(w, last, before, f, collate)
    requires last.Some? && last.value.Left? ==> w == Agent(last.value.s) && (v.Agent? ==> v.s.profile != last.value.s.profile)
    ensures Kept(w, last, before, Run(v, f, collate), collate)
  {
    hide Quiet, Run, Erased, Sound, Separated;
    if last.Some? && last.value.Left? {
      assert Compatible(v, w, collate);
      assert [v][..0] == [] && RunAll([v], f, collate) == Run(v, f, collate);
      RunKeepsErased([v], f, w.s.id, w.s.profile, collate);
    } else if Quiet(w, f, collate) {
      TeamKeepsQuiet(writers, w, v, f, collate);
    }
  }

  lemma LeftKeeps(writers: set<Writer>, w: Writer, last: Option<Event>, s: AgentSpec, before: Files, f: Files, collate: Collation)
    requires Team(writers, collate) && w in writers && Agent(s) in writers && w != Agent(s)
    requires Kept(w, last, before, f, collate) && (w.Agent? ==> w.s.profile != s.profile)
    ensures Kept(w, last, before, Happen(Left(s), f, collate), collate)
  {
    hide Quiet, Deregister, Erased, Sound, Separated;
    assert Compatible(w, Agent(s), collate);
    if last.Some? && last.value.Left? {
      DeregisterKeepsErased(f.cfg, s, last.value.s.id, last.value.s.profile);
    } else if Quiet(w, f, collate) {
      DeregisterKeepsQuiet(w, f, s.id, s.profile, collate);
    }
  }

  lemma HappenSettles(writers: set<Writer>, e: Event, before: Files, f: Files, collate: Collation)
    requires Team(writers, collate) && By(e) in writers
    ensures Kept(By(e), Some(e), before, Happen(e, f, collate), collate)
  {
    hide Quiet, Deregister, Erased, Run;
    match e
    case Ran(w) => RunSettles(w, f, collate);
    case Left(s) => DeregisterErases(f.cfg, s.id, s.profile);
  }

  /** However merges and de-registrations of any agents and runs of the other writers follow each other: a writer whose
      last event was a run has nothing to write, and of an agent that left last nothing is left, provided no agent has
      the browser profile of another that leaves. */
  lemma {:induction false} LastEventHolds(writers: set<Writer>, events: seq<Event>, f: Files, collate: Collation)
    requires Team(writers, collate) && forall e :: e in events ==> By(e) in writers
    requires forall s, w :: Left(s) in events && w in writers && w.Agent? && w.s != s ==> w.s.profile != s.profile
    ensures forall w :: w in writers ==> Kept(w, LastOf(events, w), f, HappenAll(events, f, collate), collate)
  {
    if |events| > 0 {
      hide Kept, Team, Happen, By;
      var front, e := events[..|events| - 1], events[|events| - 1];
      assert events == front + [e];
      var g := HappenAll(front, f, collate);
      LastEventHolds(writers, front, f, collate);
      forall w | w in writers ensures Kept(w, LastOf(events, w), f, Happen(e, g, collate), collate) {
        if By(e) == w {
          HappenSettles(writers, e, f, g, collate);
        } else {
          OtherHolds(writers, front, w, e, f, g, collate);
        }
      }
    }
  }

  lemma {:induction false} LastIn(events: seq<Event>, w: Writer)
    ensures var last := LastOf(events, w); last.Some? ==> last.value in events && By(last.value) == w
  {
    if |events| > 0 { LastIn(events[..|events| - 1], w); }
  }

  lemma OtherHolds(writers: set<Writer>, front: seq<Event>, w: Writer, e: Event, f: Files, g: Files, collate: Collation)
    requires Team(writers, collate) && w in writers && By(e) in writers && By(e) != w
    requires forall s, v :: Left(s) in front + [e] && v in writers && v.Agent? && v.s != s ==> v.s.profile != s.profile
    requires Kept(w, LastOf(front, w), f, g, collate)
    ensures Kept(w, LastOf(front, w), f, Happen(e, g, collate), collate)
  {
    hide Kept, Team, LastOf;
    LastIn(front, w);
    match e
    case Ran(v) => RanKeeps(writers, w, LastOf(front, w), v, f, g, collate);
    case Left(s) =>
      assert e in front + [e];
      LeftKeeps(writers, w, LastOf(front, w), s, f, g, collate);
  }
}
