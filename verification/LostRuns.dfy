/** Open runs the pipeline service no longer knows: a pass deletes a stale run there before it saves that the run is no
    longer open. */
module LostRuns {
  import opened Values
  import opened RunIds
  import opened AutoResearch
  import opened DrainOrders

  /** The project, and the runs deleted at the service. */
  datatype Whole = Whole(w: World, gone: set<string>)

  /** A step, and which of the runs it culls the service deletes: deletion is best effort. */
  datatype Happening = Happening(step: Step, deleted: set<string>)

  function StaleIn(ids: set<string>, reports: map<string, Report>, version: string): set<string> {
    set id | id in ids && Stale(id, reports, version)
  }

  /** The runs a pass culls. */
  function Culls(p: Project, w: World, x: Inputs, drainOrder: seq<string>): set<string> {
    if x.version.None? || x.version.value == "" then {}
    else StaleIn(DrainAll(p, w, drainOrder, x.drainReports, x.now).st.open.Keys, x.cullReports, x.version.value)
  }

  /** The service reports nothing of deleted runs. */
  ghost predicate Possible(p: Project, s: Whole, h: Happening) {
    match h.step
    case HumanReset => h.deleted == {}
    case Reconcile(x, drainOrder, cullOrder) =>
      && Orders(p, s.w, x, drainOrder, cullOrder)
      && h.deleted <= Culls(p, s.w, x, drainOrder)
      && forall id :: id in s.gone ==> id !in x.drainReports && id !in x.cullReports
  }

  function Then(p: Project, s: Whole, h: Happening): Whole { Whole(Next(p, s.w, h.step), s.gone + h.deleted) }

  ghost predicate RunIn(p: Project, s: Whole, run: seq<Happening>)
    decreases run
  {
    |run| > 0 ==> Possible(p, s, run[0]) && RunIn(p, Then(p, s, run[0]), run[1..])
  }

  function Ending(p: Project, s: Whole, run: seq<Happening>): Whole
    decreases run
  {
    if |run| == 0 then s else Ending(p, Then(p, s, run[0]), run[1..])
  }

  /** The runs held open forever. */
  function Lost(s: Whole): set<string> { s.w.st.open.Keys * s.gone }

  ghost predicate Inv(p: Project, s: Whole) { Valid(p, s.w) && s.gone <= Ids(p.name, s.w.st.round) }

  // ----- one pass -----

  lemma CullOneRuns(p: Project, w: World, id: string, reports: map<string, Report>, version: string)
    ensures var m := CullOne(p, w, id, reports, version);
            && m.st.open.Keys == w.st.open.Keys - (if Stale(id, reports, version) then {id} else {})
            && m.st.round == w.st.round
            && |m.log| == |w.log| + if Stale(id, reports, version) then 1 else 0
  {
    assert (w.st.open - {id}).Keys == w.st.open.Keys - {id};
  }

  /** Culling drops the stale runs, each leaving its mark in the history. */
  lemma {:induction false} CullAllRuns(p: Project, w: World, order: seq<string>, reports: map<string, Report>, version: string)
    ensures var m, stale := CullAll(p, w, order, reports, version), StaleIn(SetOf(order), reports, version);
            && m.st.open.Keys == w.st.open.Keys - stale
            && m.st.round == w.st.round
            && |m.log| >= |w.log| && (stale != {} ==> |m.log| > |w.log|)
  {
    hide Stale, CullOne;
    if |order| > 0 {
      var front, id := order[..|order| - 1], order[|order| - 1];
      assert order == front + [id];
      CullAllRuns(p, w, front, reports, version);
      CullOneRuns(p, CullAll(p, w, front, reports, version), id, reports, version);
      StaleMore(front, id, reports, version);
    } else {
      assert StaleIn(SetOf(order), reports, version) == {};
    }
  }

  lemma StaleMore(front: seq<string>, id: string, reports: map<string, Report>, version: string)
    ensures StaleIn(SetOf(front + [id]), reports, version)
         == StaleIn(SetOf(front), reports, version) + if Stale(id, reports, version) then {id} else {}
  {
    hide Stale;
  }

  lemma {:induction false} DrainAllRuns(p: Project, w: World, order: seq<string>, reports: map<string, Report>, now: int)
    ensures var m := DrainAll(p, w, order, reports, now);
            m.st.round == w.st.round && |m.log| >= |w.log| && m.st.open.Keys <= w.st.open.Keys
  {
    hide Complete, OutcomeOf;
    if |order| > 0 { DrainAllRuns(p, w, order[..|order| - 1], reports, now); }
  }

  /** What a pass has in memory before it submits. */
  lemma ObservedRuns(p: Project, w: World, x: Inputs, drainOrder: seq<string>, cullOrder: seq<string>)
    requires Orders(p, w, x, drainOrder, cullOrder)
    ensures var m, culls := Observed(p, w, x, drainOrder, cullOrder), Culls(p, w, x, drainOrder);
            && culls <= w.st.open.Keys && m.st.open.Keys <= w.st.open.Keys - culls
            && m.st.round == w.st.round && (culls != {} ==> m.log != w.log)
            && forall id :: id in w.st.open && id !in x.drainReports && id !in x.cullReports ==> id in m.st.open
  {
    hide DrainAll, CullAll, StaleIn;
    var d := DrainAll(p, w, drainOrder, x.drainReports, x.now);
    DrainAllRuns(p, w, drainOrder, x.drainReports, x.now);
    OrderSet(drainOrder, w.st.open.Keys);
    DrainedRuns(p, w, drainOrder, x.drainReports, x.now);
    OrderSet(cullOrder, d.st.open.Keys);
    if x.version.Some? {
      CullAllRuns(p, d, cullOrder, x.cullReports, x.version.value);
      StaleAre(d.st.open.Keys, x.cullReports, x.version.value);
    }
    Unreported(p, w, x);
  }

  lemma StaleAre(ids: set<string>, reports: map<string, Report>, version: string)
    ensures StaleIn(ids, reports, version) <= ids * reports.Keys
  {
  }

  lemma Unreported(p: Project, w: World, x: Inputs)
    ensures Done(p, w.st.startedAt, w.st.open.Keys, x.drainReports, x.now) <= x.drainReports.Keys
  {
  }

  /** A saved pass drops what it culled; an unsaved one leaves everything open. What is not reported stays open. */
  lemma PassRuns(p: Project, w: World, x: Inputs, drainOrder: seq<string>, cullOrder: seq<string>)
    requires Valid(p, w) && Orders(p, w, x, drainOrder, cullOrder)
    ensures var after, culls := Pass(p, w, x, drainOrder, cullOrder), Culls(p, w, x, drainOrder);
            && culls <= w.st.open.Keys <= Ids(p.name, w.st.round)
            && (if x.saved then culls !! after.st.open.Keys else after == w)
            && (forall id :: id in w.st.open && id !in x.drainReports && id !in x.cullReports ==> id in after.st.open)
            && Ids(p.name, w.st.round) <= Ids(p.name, after.st.round)
            && after.st.open.Keys - w.st.open.Keys !! Ids(p.name, w.st.round)
  {
    hide Observed, Culls, RunId, Ids, Explains, Orders;
    ObservedRuns(p, w, x, drainOrder, cullOrder);
    IdsCount(p.name, w.st.round);
    OpenAreIds(p, w);
    var m, culls := Observed(p, w, x, drainOrder, cullOrder), Culls(p, w, x, drainOrder);
    if culls != {} { FewerOpen(p, w, m.st.open, culls); }
  }

  lemma OpenAreIds(p: Project, w: World)
    requires Valid(p, w)
    ensures w.st.open.Keys <= Ids(p.name, w.st.round)
  {
    hide Ids, DrainedIds, CulledIds;
  }

  /** After a cull there is room for a run. */
  lemma FewerOpen(p: Project, w: World, left: map<string, string>, culls: set<string>)
    requires Valid(p, w) && culls != {} && culls <= w.st.open.Keys && left.Keys <= w.st.open.Keys - culls
    ensures |left| < p.limits.Concurrent()
  {
    hide Explains;
    SubsetSize(left.Keys, w.st.open.Keys);
    assert |left| == |left.Keys| && |w.st.open| == |w.st.open.Keys|;
  }

  // ----- whole runs -----

  /** The invariant, that lost runs stay lost, and which runs a step loses: those deleted in a pass that is not saved. */
  lemma StepLoses(p: Project, s: Whole, h: Happening)
    requires Inv(p, s) && Possible(p, s, h)
    ensures Inv(p, Then(p, s, h))
    ensures Lost(Then(p, s, h)) == Lost(s) + if h.step.Reconcile? && !h.step.x.saved then h.deleted else {}
  {
    hide Valid, Pass, Orders, Culls, Ids;
    match h.step
    case HumanReset => ResetValid(p, s.w);
    case Reconcile(x, drainOrder, cullOrder) =>
      PassKeeps(p, s.w, x, drainOrder, cullOrder);
      PassRuns(p, s.w, x, drainOrder, cullOrder);
  }

  lemma {:induction false} RunLoses(p: Project, s: Whole, run: seq<Happening>)
    requires Inv(p, s) && RunIn(p, s, run)
    ensures Inv(p, Ending(p, s, run)) && Lost(s) <= Lost(Ending(p, s, run))
    decreases run
  {
    hide Inv, Possible, Then, Lost;
    if |run| > 0 {
      StepLoses(p, s, run[0]);
      RunLoses(p, Then(p, s, run[0]), run[1..]);
    }
  }

  /** A pass in which the service deleted a run and the save failed. */
  predicate Loses(h: Happening) { h.step.Reconcile? && !h.step.x.saved && h.deleted != {} }

  /** A run of passes ends with a run held open that no pass will ever drain or cull, and that no timeout ends, exactly
      when it began with one or some pass deleted a run and was not saved. */
  lemma {:induction false} LostExactly(p: Project, s: Whole, run: seq<Happening>)
    requires Inv(p, s) && RunIn(p, s, run)
    ensures Lost(Ending(p, s, run)) != {} <==> Lost(s) != {} || exists h :: h in run && Loses(h)
    decreases run
  {
    hide Inv, Possible, Then, Lost;
    if |run| > 0 {
      StepLoses(p, s, run[0]);
      var t := Then(p, s, run[0]);
      LostExactly(p, t, run[1..]);
      assert Lost(t) != {} <==> Lost(s) != {} || Loses(run[0]);
      hide Loses;
      assert run == [run[0]] + run[1..];
      assert (exists h :: h in run && Loses(h)) <==> Loses(run[0]) || exists h :: h in run[1..] && Loses(h);
    }
  }

  /** Lost runs stay open for good, and once they fill the concurrency limit no round is ever submitted again. */
  lemma {:induction false} LostForGood(p: Project, s: Whole, run: seq<Happening>)
    requires Inv(p, s) && RunIn(p, s, run)
    ensures Lost(s) <= Ending(p, s, run).w.st.open.Keys
    ensures |Lost(s)| >= p.limits.Concurrent() ==> Ending(p, s, run).w.st.round == s.w.st.round
    decreases run
  {
    RunLoses(p, s, run);
    if |run| > 0 && |Lost(s)| >= p.limits.Concurrent() {
      hide Inv, Possible;
      var t := Then(p, s, run[0]);
      StepLoses(p, s, run[0]);
      NoRoom(p, s, run[0]);
      SubsetSize(Lost(s), Lost(t));
      LostForGood(p, t, run[1..]);
    }
  }

  lemma NoRoom(p: Project, s: Whole, h: Happening)
    requires Inv(p, s) && Possible(p, s, h) && |Lost(s)| >= p.limits.Concurrent()
    ensures Then(p, s, h).w.st.round == s.w.st.round
  {
    hide Valid, Observed, Orders, Culls, Ids;
    match h.step
    case HumanReset =>
    case Reconcile(x, drainOrder, cullOrder) =>
      ObservedRuns(p, s.w, x, drainOrder, cullOrder);
      var m := Observed(p, s.w, x, drainOrder, cullOrder);
      SubsetSize(Lost(s), m.st.open.Keys);
      assert |m.st.open| == |m.st.open.Keys|;
  }

  lemma FreshInv(p: Project)
    ensures Inv(p, Whole(World([], FRESH), {})) && Lost(Whole(World([], FRESH), {})) == {}
  {
    FreshValid(p);
  }

  /** From a fresh project. */
  lemma FreshLoses(p: Project, run: seq<Happening>)
    requires RunIn(p, Whole(World([], FRESH), {}), run)
    ensures Lost(Ending(p, Whole(World([], FRESH), {}), run)) != {} <==> exists h :: h in run && Loses(h)
  {
    hide Inv, Lost, Loses, RunIn, Ending;
    FreshInv(p);
    LostExactly(p, Whole(World([], FRESH), {}), run);
  }
}
