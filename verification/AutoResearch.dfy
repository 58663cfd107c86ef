/** The AutoResearch loop as a state machine over its status: drain, cull, gate, submit. */
module AutoResearch {
  import opened Values
  import opened RunIds
  import opened Losses

  /** Times are in nanoseconds. */
  const MINUTE := 60_000_000_000

  /** The spec's limits as written; zero stands for the default. */
  datatype Limits = Limits(
    cadence: int, maxConcurrentRuns: int, maxTotalExperiments: int, maxDrainFailures: int, maxRoundDuration: int)
  {
    function Cadence(): int { if cadence == 0 then 30 * MINUTE else cadence * MINUTE }
    function Concurrent(): int { if maxConcurrentRuns == 0 then 1 else maxConcurrentRuns }
    function Total(): int { if maxTotalExperiments == 0 then 100 else maxTotalExperiments }
    function Failures(): int { if maxDrainFailures <= 0 then 3 else maxDrainFailures }
    function Duration(): int { if maxRoundDuration <= 0 then 120 * MINUTE else maxRoundDuration * MINUTE }
  }

  datatype Project = Project(name: string, direction: string, limits: Limits)

  datatype Loss = Pending | Measured(micro: int) | Superseded

  datatype Record = Record(round: int, runId: string, loss: Loss, kept: Option<bool>)

  const RETAINED := 20

  datatype Status = Status(
    round: nat,
    experimentsRun: nat,
    experimentsKept: nat,
    best: Option<int>,
    bestRun: string,
    open: map<string, string>,
    startedAt: map<string, int>,
    failures: nat,
    recent: seq<Record>,
    lastCycle: Option<int>)

  const FRESH := Status(0, 0, 0, None, "", map[], map[], 0, [], None)

  /** What the pipeline service says of one run; `result` is the trainer's reported loss, if it left one. */
  datatype Report = Report(state: string, result: Option<real>, version: string)

  predicate IsRunTerminal(state: string) { state in {"SUCCEEDED", "FAILED", "SKIPPED", "CANCELED"} }

  datatype Outcome = StillOpen | Failed | Succeeded(loss: real)

  /** How a run is drained now: not at all, as a failure (also when it overran its time), or with a loss. */
  function OutcomeOf(p: Project, startedAt: map<string, int>, id: string, reports: map<string, Report>, now: int): Outcome {
    if id !in reports then StillOpen
    else
      var r := reports[id];
      if !IsRunTerminal(r.state) then
        if id in startedAt && now - startedAt[id] > p.limits.Duration() then Failed else StillOpen
      else if r.state == "SUCCEEDED" && r.result.Some? then Succeeded(r.result.value)
      else Failed
  }

  function Completed(r: Record, loss: Option<real>, kept: bool): Record {
    r.(kept := Some(kept), loss := if loss.Some? then Measured(Micro(loss.value)) else r.loss)
  }

  /** The first record of the run is completed. */
  function Complete(recent: seq<Record>, id: string, loss: Option<real>, kept: bool): seq<Record> {
    if |recent| == 0 then []
    else if recent[0].runId == id then [Completed(recent[0], loss, kept)] + recent[1..]
    else [recent[0]] + Complete(recent[1..], id, loss, kept)
  }

  function Drained(p: Project, st: Status, id: string, loss: Option<real>): Status {
    var kept := loss.Some? && IsImprovement(st.best, Minimizes(p.direction), loss.value);
    st.(experimentsRun := st.experimentsRun + 1,
        experimentsKept := if kept then st.experimentsKept + 1 else st.experimentsKept,
        best := if kept then Some(Micro(loss.value)) else st.best,
        bestRun := if kept then id else st.bestRun,
        open := st.open - {id},
        startedAt := st.startedAt - {id},
        failures := if loss.Some? then 0 else st.failures + 1,
        recent := Complete(st.recent, id, loss, kept))
  }

  function Culled(p: Project, st: Status, id: string): Status {
    st.(open := st.open - {id},
        recent := st.recent + [Record(ExtractRound(id, p.name), id, Superseded, Some(false))])
  }

  function Prepend(recent: seq<Record>, r: Record): seq<Record> {
    var all := [r] + recent;
    if |all| > RETAINED then all[..RETAINED] else all
  }

  function Submitted(p: Project, st: Status, dspRun: string, now: int): Status {
    var id := RunId(p.name, st.round + 1);
    st.(round := st.round + 1,
        open := st.open[id := dspRun],
        startedAt := st.startedAt[id := now],
        lastCycle := Some(now),
        recent := Prepend(st.recent, Record(st.round + 1, id, Pending, None)))
  }

  // ----- what a step does, in the terms of its inputs -----

  /** The limits in nanoseconds and numbers, with the defaults in place. */
  lemma LimitsRead(l: Limits)
    ensures l.Cadence() == (if l.cadence == 0 then 30 else l.cadence) * 60 * 1_000_000_000
    ensures l.Duration() == (if l.maxRoundDuration > 0 then l.maxRoundDuration else 120) * 60 * 1_000_000_000
    ensures l.Concurrent() == (if l.maxConcurrentRuns == 0 then 1 else l.maxConcurrentRuns)
    ensures l.Total() == (if l.maxTotalExperiments == 0 then 100 else l.maxTotalExperiments)
    ensures l.Failures() == (if l.maxDrainFailures > 0 then l.maxDrainFailures else 3)
  {
  }

  /** The run is over: with a loss when it succeeded and left a result; without one when it succeeded and left none, when
      it failed, was skipped or canceled, or when it is not over and was started longer ago than a round may take. */
  predicate Ends(p: Project, startedAt: map<string, int>, id: string, reports: map<string, Report>, now: int, loss: Option<real>) {
    && id in reports
    && var r := reports[id];
       match loss
       case Some(x) => r.state == "SUCCEEDED" && r.result == Some(x)
       case None =>
         || (r.state == "SUCCEEDED" && r.result.None?)
         || r.state == "FAILED" || r.state == "SKIPPED" || r.state == "CANCELED"
         || (r.state != "SUCCEEDED" && id in startedAt && now > startedAt[id] + p.limits.Duration())
  }

  lemma OutcomeIs(p: Project, startedAt: map<string, int>, id: string, reports: map<string, Report>, now: int)
    ensures forall x :: OutcomeOf(p, startedAt, id, reports, now) == Succeeded(x) <==> Ends(p, startedAt, id, reports, now, Some(x))
    ensures OutcomeOf(p, startedAt, id, reports, now).Failed? <==> Ends(p, startedAt, id, reports, now, None)
    ensures OutcomeOf(p, startedAt, id, reports, now).StillOpen?
       <==> forall loss :: !Ends(p, startedAt, id, reports, now, loss)
  {
    var o := OutcomeOf(p, startedAt, id, reports, now);
    if o.Succeeded? { assert Ends(p, startedAt, id, reports, now, Some(o.loss)); }
    if o.Failed? { assert Ends(p, startedAt, id, reports, now, None); }
  }

  /** Draining one run: counted and released; a loss that beats the stored one becomes the champion's, any loss clears the
      failure counter and no loss raises it. */
  lemma DrainedReads(p: Project, st: Status, id: string, loss: Option<real>)
    ensures var after := Drained(p, st, id, loss);
            var beats := loss.Some? && (st.best.None?
                                        || if p.direction == "" || p.direction == "minimize" then loss.value < Stored(st.best.value)
                                           else loss.value > Stored(st.best.value));
            && after.experimentsRun == st.experimentsRun + 1 && after.open == st.open - {id} && after.startedAt == st.startedAt - {id}
            && after.failures == (if loss.Some? then 0 else st.failures + 1)
            && (if beats then after.best == Some(Micro(loss.value)) && after.bestRun == id
                              && after.experimentsKept == st.experimentsKept + 1
                else after.best == st.best && after.bestRun == st.bestRun && after.experimentsKept == st.experimentsKept)
            && after.round == st.round && after.lastCycle == st.lastCycle
            && after.recent == Complete(st.recent, id, loss, beats)
  {
    hide Complete, Micro, Stored;
  }

  /** A submission: the next round under its own id, open and started now, its record the newest of at most RETAINED. */
  lemma SubmittedReads(p: Project, st: Status, dspRun: string, now: int)
    ensures var after, id := Submitted(p, st, dspRun, now), p.name + "-round-" + Decimal(st.round + 1);
            && after.round == st.round + 1 && after.open == st.open[id := dspRun] && after.startedAt == st.startedAt[id := now]
            && after.lastCycle == Some(now)
            && |after.recent| == (if |st.recent| < 20 then |st.recent| + 1 else 20)
            && after.recent[0] == Record(st.round + 1, id, Pending, None)
            && (forall i :: 0 < i < |after.recent| ==> after.recent[i] == st.recent[i - 1])
            && after.experimentsRun == st.experimentsRun && after.failures == st.failures && after.best == st.best
            && after.bestRun == st.bestRun && after.experimentsKept == st.experimentsKept
  {
    hide Decimal;
  }

  /** A cull: released and recorded at the end as superseded, under the round its id carries; nothing is counted. */
  lemma CulledReads(p: Project, st: Status, round: nat)
    requires round <= MAX_INT32
    ensures var id := p.name + "-round-" + Decimal(round);
            Culled(p, st, id)
            == st.(open := st.open - {id}, recent := st.recent + [Record(round, id, Superseded, Some(false))])
  {
    ExtractInvertsRunId(p.name, round);
    hide ExtractRound, Decimal;
  }

  // ----- history -----

  /** What happened to the project, in order. */
  datatype Event = Submit(id: string) | Drain(id: string, loss: Option<real>) | Cull(id: string) | Reset

  function DrainedIds(log: seq<Event>): set<string> { set e | e in log && e.Drain? :: e.id }

  function CulledIds(log: seq<Event>): set<string> { set e | e in log && e.Cull? :: e.id }

  function MeasuredLosses(log: seq<Event>): seq<real> {
    if |log| == 0 then [] else
    MeasuredLosses(log[..|log| - 1]) + match log[|log| - 1] case Drain(_, Some(x)) => [x] case _ => []
  }

  /** Drains without a loss since the last drain with one, or the last reset. */
  function FailingSuffix(log: seq<Event>): nat {
    if |log| == 0 then 0 else
    match log[|log| - 1]
    case Drain(_, None) => 1 + FailingSuffix(log[..|log| - 1])
    case Drain(_, Some(_)) => 0
    case Reset => 0
    case _ => FailingSuffix(log[..|log| - 1])
  }

  function BestOf(p: Project, log: seq<Event>): Option<int> {
    var losses := MeasuredLosses(log);
    if |losses| == 0 then None else Some(Micro(Extremum(Minimizes(p.direction), losses)))
  }

  /** Every submitted round is open, drained or culled, and only one of these. */
  ghost predicate Accounted(project: string, log: seq<Event>, open: set<string>, round: nat) {
    && open + DrainedIds(log) + CulledIds(log) == Ids(project, round)
    && open !! DrainedIds(log) && open !! CulledIds(log) && DrainedIds(log) !! CulledIds(log)
  }

  /** The status is what the history says: rounds, counters and best loss. */
  ghost predicate Explains(p: Project, log: seq<Event>, st: Status) {
    && Accounted(p.name, log, st.open.Keys, st.round)
    && st.startedAt.Keys == st.open.Keys + CulledIds(log)
    && st.experimentsRun == |DrainedIds(log)|
    && st.failures == FailingSuffix(log)
    && st.best == BestOf(p, log)
  }

  function Positive(n: int): nat { if n < 0 then 0 else n }

  /** The budgets hold of every state, with the overshoot that runs in flight can cause. */
  ghost predicate WithinLimits(p: Project, st: Status) {
    var limits := p.limits;
    var concurrent := Positive(limits.Concurrent());
    && |st.open| <= concurrent
    && st.experimentsRun + |st.open| <= Positive(if concurrent == 0 || limits.Total() <= 0 then 0 else limits.Total() + concurrent - 1)
    && st.failures + |st.open| <= (if concurrent == 0 then 0 else limits.Failures() - 1 + concurrent)
    && |st.recent| + |st.open| <= RETAINED + concurrent
  }

  lemma Snoc<T>(s: seq<T>, x: T)
    ensures (s + [x])[..|s + [x]| - 1] == s && (s + [x])[|s + [x]| - 1] == x
  {
  }

  lemma IdsOfLog(log: seq<Event>, e: Event)
    ensures DrainedIds(log + [e]) == DrainedIds(log) + if e.Drain? then {e.id} else {}
    ensures CulledIds(log + [e]) == CulledIds(log) + if e.Cull? then {e.id} else {}
  {
    assert forall x :: x in log + [e] <==> x in log || x == e;
    assert e in log + [e];
    assert forall x :: x in log ==> x in log + [e];
  }

  lemma BestStep(p: Project, log: seq<Event>, id: string, x: real)
    ensures BestOf(p, log + [Drain(id, Some(x))]) == Champion(BestOf(p, log), Minimizes(p.direction), x)
  {
    Snoc(log, Drain(id, Some(x)));
    var losses := MeasuredLosses(log);
    Snoc(losses, x);
    if |losses| > 0 {
      ChampionStep(Minimizes(p.direction), Extremum(Minimizes(p.direction), losses), x);
    }
  }

  lemma BestSame(p: Project, log: seq<Event>, e: Event)
    requires e.Drain? ==> e.loss.None?
    ensures BestOf(p, log + [e]) == BestOf(p, log)
  {
    Snoc(log, e);
    assert MeasuredLosses(log) + [] == MeasuredLosses(log);
  }

  lemma FailingSame(log: seq<Event>, e: Event)
    requires e.Submit? || e.Cull?
    ensures FailingSuffix(log + [e]) == FailingSuffix(log)
  {
    Snoc(log, e);
  }

  lemma {:induction false} CompleteLength(recent: seq<Record>, id: string, loss: Option<real>, kept: bool)
    ensures |Complete(recent, id, loss, kept)| == |recent|
  {
    if |recent| > 0 { CompleteLength(recent[1..], id, loss, kept); }
  }

  lemma RemoveOne(open: map<string, string>, id: string)
    requires id in open
    ensures (open - {id}).Keys == open.Keys - {id} && |open - {id}| == |open| - 1
  {
    assert (open - {id}).Keys == open.Keys - {id};
    assert |(open - {id}).Keys| == |open.Keys| - 1;
    assert |open| == |open.Keys|;
  }

  lemma DrainAccounts(project: string, log: seq<Event>, open: set<string>, round: nat, id: string, loss: Option<real>)
    requires Accounted(project, log, open, round) && id in open
    ensures Accounted(project, log + [Drain(id, loss)], open - {id}, round)
    ensures |DrainedIds(log + [Drain(id, loss)])| == |DrainedIds(log)| + 1
    ensures CulledIds(log + [Drain(id, loss)]) == CulledIds(log)
  {
    hide Ids, DrainedIds, CulledIds;
    IdsOfLog(log, Drain(id, loss));
    assert id !in DrainedIds(log);
    assert DrainedIds(log) + {id} + (open - {id}) == DrainedIds(log) + open;
  }

  lemma DrainExplains(p: Project, log: seq<Event>, st: Status, id: string, loss: Option<real>)
    requires Explains(p, log, st) && id in st.open
    ensures Explains(p, log + [Drain(id, loss)], Drained(p, st, id, loss))
  {
    hide BestOf, DrainedIds, CulledIds, Accounted, Complete, IsImprovement, Micro;
    DrainAccounts(p.name, log, st.open.Keys, st.round, id, loss);
    DrainCounts(p, log, st, id, loss);
    RemoveOne(st.open, id);
    var st' := Drained(p, st, id, loss);
    assert st'.startedAt.Keys == st.startedAt.Keys - {id};
    assert id !in CulledIds(log) by { DrainedOnce(p, log, st, id); }
  }

  lemma DrainedOnce(p: Project, log: seq<Event>, st: Status, id: string)
    requires Accounted(p.name, log, st.open.Keys, st.round) && id in st.open
    ensures id !in CulledIds(log) && id !in DrainedIds(log)
  {
    hide Ids, DrainedIds, CulledIds;
  }

  lemma DrainCounts(p: Project, log: seq<Event>, st: Status, id: string, loss: Option<real>)
    requires st.failures == FailingSuffix(log) && st.best == BestOf(p, log)
    ensures Drained(p, st, id, loss).failures == FailingSuffix(log + [Drain(id, loss)])
    ensures Drained(p, st, id, loss).best == BestOf(p, log + [Drain(id, loss)])
  {
    hide BestOf, Complete, IsImprovement, Micro;
    Snoc(log, Drain(id, loss));
    if loss.Some? { BestStep(p, log, id, loss.value); } else { BestSame(p, log, Drain(id, loss)); }
  }

  lemma DrainWithinLimits(p: Project, st: Status, id: string, loss: Option<real>)
    requires WithinLimits(p, st) && id in st.open
    ensures WithinLimits(p, Drained(p, st, id, loss))
  {
    RemoveOne(st.open, id);
    var kept := loss.Some? && IsImprovement(st.best, Minimizes(p.direction), loss.value);
    CompleteLength(st.recent, id, loss, kept);
    hide Complete, IsImprovement, Micro;
  }

  lemma DrainKeeps(p: Project, log: seq<Event>, st: Status, id: string, loss: Option<real>)
    requires Explains(p, log, st) && WithinLimits(p, st) && id in st.open
    ensures Explains(p, log + [Drain(id, loss)], Drained(p, st, id, loss))
    ensures WithinLimits(p, Drained(p, st, id, loss))
  {
    DrainExplains(p, log, st, id, loss);
    DrainWithinLimits(p, st, id, loss);
    hide *;
  }

  lemma CullAccounts(project: string, log: seq<Event>, open: set<string>, round: nat, id: string)
    requires Accounted(project, log, open, round) && id in open
    ensures Accounted(project, log + [Cull(id)], open - {id}, round)
    ensures DrainedIds(log + [Cull(id)]) == DrainedIds(log)
    ensures CulledIds(log + [Cull(id)]) == CulledIds(log) + {id}
  {
    hide Ids, DrainedIds, CulledIds;
    IdsOfLog(log, Cull(id));
    assert (open - {id}) + (CulledIds(log) + {id}) == open + CulledIds(log);
  }

  lemma CullExplains(p: Project, log: seq<Event>, st: Status, id: string)
    requires Explains(p, log, st) && id in st.open
    ensures Explains(p, log + [Cull(id)], Culled(p, st, id))
  {
    hide BestOf, Accounted, DrainedIds, CulledIds, ExtractRound;
    CullAccounts(p.name, log, st.open.Keys, st.round, id);
    RemoveOne(st.open, id);
    Snoc(log, Cull(id));
    BestSame(p, log, Cull(id));
    assert st.open.Keys - {id} + (CulledIds(log) + {id}) == st.open.Keys + CulledIds(log);
  }

  lemma CullWithinLimits(p: Project, st: Status, id: string)
    requires WithinLimits(p, st) && id in st.open
    ensures WithinLimits(p, Culled(p, st, id))
  {
    hide ExtractRound;
    RemoveOne(st.open, id);
  }

  lemma CullKeeps(p: Project, log: seq<Event>, st: Status, id: string)
    requires Explains(p, log, st) && WithinLimits(p, st) && id in st.open
    ensures Explains(p, log + [Cull(id)], Culled(p, st, id))
    ensures WithinLimits(p, Culled(p, st, id))
  {
    hide *;
    CullExplains(p, log, st, id);
    CullWithinLimits(p, st, id);
  }

  /** The gates in front of a submission. */
  predicate MaySubmit(p: Project, st: Status) {
    st.experimentsRun < p.limits.Total() && |st.open| < p.limits.Concurrent() && st.failures < p.limits.Failures()
  }

  lemma SubmitAccounts(project: string, log: seq<Event>, open: set<string>, round: nat)
    requires Accounted(project, log, open, round)
    ensures RunId(project, round + 1) !in open
    ensures DrainedIds(log + [Submit(RunId(project, round + 1))]) == DrainedIds(log)
    ensures CulledIds(log + [Submit(RunId(project, round + 1))]) == CulledIds(log)
    ensures Accounted(project, log + [Submit(RunId(project, round + 1))], open + {RunId(project, round + 1)}, round + 1)
  {
    hide Ids, DrainedIds, CulledIds, RunId;
    IdsCount(project, round);
    IdsOfLog(log, Submit(RunId(project, round + 1)));
    OneMore(open, DrainedIds(log), CulledIds(log), Ids(project, round), RunId(project, round + 1));
  }

  lemma OneMore(a: set<string>, b: set<string>, c: set<string>, all: set<string>, x: string)
    requires a + b + c == all && a !! b && a !! c && b !! c && x !in all
    ensures a + {x} + b + c == all + {x} && a + {x} !! b && a + {x} !! c && x !in a
  {
    assert x !in b && x !in c;
    assert a + {x} + b + c == a + b + c + {x};
  }

  lemma SubmitExplains(p: Project, log: seq<Event>, st: Status, dspRun: string, now: int)
    requires Explains(p, log, st)
    ensures Explains(p, log + [Submit(RunId(p.name, st.round + 1))], Submitted(p, st, dspRun, now))
  {
    hide BestOf, Accounted, DrainedIds, CulledIds, RunId, Prepend;
    var id := RunId(p.name, st.round + 1);
    var st' := Submitted(p, st, dspRun, now);
    SubmitAccounts(p.name, log, st.open.Keys, st.round);
    FailingSame(log, Submit(id));
    BestSame(p, log, Submit(id));
    assert st'.open.Keys == st.open.Keys + {id};
    assert st'.startedAt.Keys == st.startedAt.Keys + {id};
    hide FailingSuffix, Submitted;
    assert st.open.Keys + {id} + CulledIds(log) == st.open.Keys + CulledIds(log) + {id};
  }

  lemma SubmitWithinLimits(p: Project, st: Status, dspRun: string, now: int)
    requires WithinLimits(p, st) && MaySubmit(p, st)
    ensures WithinLimits(p, Submitted(p, st, dspRun, now))
  {
    hide RunId;
    var id := RunId(p.name, st.round + 1);
    var open := st.open[id := dspRun];
    assert open.Keys == st.open.Keys + {id};
    assert |open| == |open.Keys| && |st.open| == |st.open.Keys|;
  }

  lemma SubmitKeeps(p: Project, log: seq<Event>, st: Status, dspRun: string, now: int)
    requires Explains(p, log, st) && WithinLimits(p, st) && MaySubmit(p, st)
    ensures Explains(p, log + [Submit(RunId(p.name, st.round + 1))], Submitted(p, st, dspRun, now))
    ensures WithinLimits(p, Submitted(p, st, dspRun, now))
  {
    hide *;
    SubmitExplains(p, log, st, dspRun, now);
    SubmitWithinLimits(p, st, dspRun, now);
  }

  lemma ResetAccounts(project: string, log: seq<Event>, open: set<string>, round: nat)
    requires Accounted(project, log, open, round)
    ensures Accounted(project, log + [Reset], open, round)
    ensures DrainedIds(log + [Reset]) == DrainedIds(log) && CulledIds(log + [Reset]) == CulledIds(log)
  {
    hide Ids, DrainedIds, CulledIds;
    IdsOfLog(log, Reset);
  }

  lemma ResetExplains(p: Project, log: seq<Event>, st: Status)
    requires Explains(p, log, st)
    ensures Explains(p, log + [Reset], st.(failures := 0))
  {
    hide BestOf, DrainedIds, CulledIds, Accounted;
    ResetAccounts(p.name, log, st.open.Keys, st.round);
    Snoc(log, Reset);
    BestSame(p, log, Reset);
  }

  lemma ResetKeeps(p: Project, log: seq<Event>, st: Status)
    requires Explains(p, log, st) && WithinLimits(p, st)
    ensures Explains(p, log + [Reset], st.(failures := 0)) && WithinLimits(p, st.(failures := 0))
  {
    ResetExplains(p, log, st);
    hide Explains;
  }

  // ----- one pass -----

  /** A status with the history behind it. */
  datatype World = World(log: seq<Event>, st: Status)

  function DrainOne(p: Project, w: World, id: string, reports: map<string, Report>, now: int): World {
    match OutcomeOf(p, w.st.startedAt, id, reports, now)
    case StillOpen => w
    case Failed => World(w.log + [Drain(id, None)], Drained(p, w.st, id, None))
    case Succeeded(x) => World(w.log + [Drain(id, Some(x))], Drained(p, w.st, id, Some(x)))
  }

  /** The open runs are visited in the order the map iteration happens to take. */
  function DrainAll(p: Project, w: World, order: seq<string>, reports: map<string, Report>, now: int): World {
    if |order| == 0 then w
    else DrainOne(p, DrainAll(p, w, order[..|order| - 1], reports, now), order[|order| - 1], reports, now)
  }

  predicate Stale(id: string, reports: map<string, Report>, version: string) {
    id in reports && reports[id].version != "" && reports[id].version != version
  }

  function CullOne(p: Project, w: World, id: string, reports: map<string, Report>, version: string): World {
    if Stale(id, reports, version) then World(w.log + [Cull(id)], Culled(p, w.st, id)) else w
  }

  function CullAll(p: Project, w: World, order: seq<string>, reports: map<string, Report>, version: string): World {
    if |order| == 0 then w
    else CullOne(p, CullAll(p, w, order[..|order| - 1], reports, version), order[|order| - 1], reports, version)
  }

  /** An iteration order of a map's keys. */
  ghost predicate OrderOf(order: seq<string>, keys: set<string>) {
    && (forall id :: id in order <==> id in keys)
    && forall i, j :: 0 <= i < j < |order| ==> order[i] != order[j]
  }

  /** Everything a pass learns from outside. An absent version means the registration failed. */
  datatype Inputs = Inputs(
    now: int,
    drainReports: map<string, Report>,
    version: Option<string>,
    cullReports: map<string, Report>,
    refsValid: bool,
    proposed: bool,
    dspRun: Option<string>,
    saved: bool)

  predicate Due(p: Project, st: Status, now: int) {
    st.lastCycle.None? || now >= st.lastCycle.value + p.limits.Cadence()
  }

  /** In memory, after draining and culling. */
  function Observed(p: Project, w: World, x: Inputs, drainOrder: seq<string>, cullOrder: seq<string>): World {
    var d := DrainAll(p, w, drainOrder, x.drainReports, x.now);
    if x.version.None? || x.version.value == "" then d else CullAll(p, d, cullOrder, x.cullReports, x.version.value)
  }

  /** What the API server holds after the pass: the cadence and the concurrency gate return without saving,
      and a failed update leaves everything as it was. */
  function Pass(p: Project, w: World, x: Inputs, drainOrder: seq<string>, cullOrder: seq<string>): World {
    var m := Observed(p, w, x, drainOrder, cullOrder);
    if !x.saved then w
    else if m.st.experimentsRun >= p.limits.Total() then m
    else if m.log == w.log && !Due(p, m.st, x.now) then w
    else if |m.st.open| >= p.limits.Concurrent() then w
    else if m.st.failures >= p.limits.Failures() || !x.refsValid || !x.proposed || x.dspRun.None? then m
    else World(m.log + [Submit(RunId(p.name, m.st.round + 1))], Submitted(p, m.st, x.dspRun.value, x.now))
  }

  ghost predicate Valid(p: Project, w: World) { Explains(p, w.log, w.st) && WithinLimits(p, w.st) }

  /** Draining touches only the runs visited. */
  lemma {:induction false} DrainAllKeeps(p: Project, w: World, order: seq<string>, reports: map<string, Report>, now: int)
    requires Valid(p, w)
    requires forall id :: id in order ==> id in w.st.open
    requires forall i, j :: 0 <= i < j < |order| ==> order[i] != order[j]
    ensures Valid(p, DrainAll(p, w, order, reports, now))
    ensures forall id :: id in w.st.open && id !in order ==> id in DrainAll(p, w, order, reports, now).st.open
  {
    hide Explains, WithinLimits, Complete;
    if |order| > 0 {
      var front, id := order[..|order| - 1], order[|order| - 1];
      assert order == front + [id];
      assert id !in front;
      DrainAllKeeps(p, w, front, reports, now);
      var m := DrainAll(p, w, front, reports, now);
      match OutcomeOf(p, m.st.startedAt, id, reports, now)
      case StillOpen =>
      case Failed => DrainKeeps(p, m.log, m.st, id, None);
      case Succeeded(x) => DrainKeeps(p, m.log, m.st, id, Some(x));
    }
  }

  lemma {:induction false} CullAllKeeps(p: Project, w: World, order: seq<string>, reports: map<string, Report>, version: string)
    requires Valid(p, w)
    requires forall id :: id in order ==> id in w.st.open
    requires forall i, j :: 0 <= i < j < |order| ==> order[i] != order[j]
    ensures Valid(p, CullAll(p, w, order, reports, version))
    ensures forall id :: id in w.st.open && id !in order ==> id in CullAll(p, w, order, reports, version).st.open
  {
    hide Explains, WithinLimits;
    if |order| > 0 {
      var front, id := order[..|order| - 1], order[|order| - 1];
      assert order == front + [id];
      assert id !in front;
      CullAllKeeps(p, w, front, reports, version);
      var m := CullAll(p, w, front, reports, version);
      if Stale(id, reports, version) { CullKeeps(p, m.log, m.st, id); }
    }
  }

  /** A run is culled exactly when its version is known and another. */
  lemma StaleIs(id: string, reports: map<string, Report>, version: string)
    ensures Stale(id, reports, version) <==> id in reports && reports[id].version !in {"", version}
  {
  }

  /** When a pass submits a round, gate by gate, and what it leaves when it does not. */
  lemma PassIs(p: Project, w: World, x: Inputs, drainOrder: seq<string>, cullOrder: seq<string>)
    ensures var m, after := Observed(p, w, x, drainOrder, cullOrder), Pass(p, w, x, drainOrder, cullOrder);
            var finished := m.st.experimentsRun >= p.limits.Total();
            var waits := m.log == w.log && m.st.lastCycle.Some? && x.now < m.st.lastCycle.value + p.limits.Cadence();
            var full, halted := |m.st.open| >= p.limits.Concurrent(), m.st.failures >= p.limits.Failures();
            var submits := x.saved && !finished && !waits && !full && !halted && x.refsValid && x.proposed && x.dspRun.Some?;
            if submits then after.st == Submitted(p, m.st, x.dspRun.value, x.now)
                            && after.log == m.log + [Submit(p.name + "-round-" + Decimal(m.st.round + 1))]
            else if x.saved && (finished || (!waits && !full)) then after == m
            else after == w
  {
    hide Observed, Submitted, Decimal;
  }

  /** The orders a pass can take. */
  ghost predicate Orders(p: Project, w: World, x: Inputs, drainOrder: seq<string>, cullOrder: seq<string>) {
    && OrderOf(drainOrder, w.st.open.Keys)
    && OrderOf(cullOrder, DrainAll(p, w, drainOrder, x.drainReports, x.now).st.open.Keys)
  }

  lemma ObservedKeeps(p: Project, w: World, x: Inputs, drainOrder: seq<string>, cullOrder: seq<string>)
    requires Valid(p, w) && Orders(p, w, x, drainOrder, cullOrder)
    ensures Valid(p, Observed(p, w, x, drainOrder, cullOrder))
  {
    hide Explains, WithinLimits, DrainAll, CullAll;
    DrainAllKeeps(p, w, drainOrder, x.drainReports, x.now);
    if x.version.Some? && x.version.value != "" {
      CullAllKeeps(p, DrainAll(p, w, drainOrder, x.drainReports, x.now), cullOrder, x.cullReports, x.version.value);
    }
  }

  /** Every pass keeps the persisted status explained by its history and within its limits. */
  lemma PassKeeps(p: Project, w: World, x: Inputs, drainOrder: seq<string>, cullOrder: seq<string>)
    requires Valid(p, w) && Orders(p, w, x, drainOrder, cullOrder)
    ensures Valid(p, Pass(p, w, x, drainOrder, cullOrder))
  {
    hide Explains, WithinLimits, Observed, Orders;
    ObservedKeeps(p, w, x, drainOrder, cullOrder);
    var m := Observed(p, w, x, drainOrder, cullOrder);
    if MaySubmit(p, m.st) && x.dspRun.Some? {
      SubmitKeeps(p, m.log, m.st, x.dspRun.value, x.now);
    }
  }

  // ----- whole runs -----

  datatype Step = Reconcile(x: Inputs, drainOrder: seq<string>, cullOrder: seq<string>) | HumanReset

  function Next(p: Project, w: World, step: Step): World {
    match step
    case Reconcile(x, drainOrder, cullOrder) => Pass(p, w, x, drainOrder, cullOrder)
    case HumanReset => World(w.log + [Reset], w.st.(failures := 0))
  }

  ghost predicate RunOf(p: Project, w: World, steps: seq<Step>)
    decreases steps
  {
    |steps| > 0 ==>
      && (steps[0].Reconcile? ==> Orders(p, w, steps[0].x, steps[0].drainOrder, steps[0].cullOrder))
      && RunOf(p, Next(p, w, steps[0]), steps[1..])
  }

  function After(p: Project, w: World, steps: seq<Step>): World
    decreases steps
  {
    if |steps| == 0 then w else After(p, Next(p, w, steps[0]), steps[1..])
  }

  lemma {:induction false} RunKeeps(p: Project, w: World, steps: seq<Step>)
    requires Valid(p, w) && RunOf(p, w, steps)
    ensures Valid(p, After(p, w, steps))
    decreases steps
  {
    hide Valid, Orders, Pass, Explains, WithinLimits;
    if |steps| > 0 {
      match steps[0]
      case Reconcile(x, drainOrder, cullOrder) =>
        PassKeeps(p, w, x, drainOrder, cullOrder);
        RunKeeps(p, Next(p, w, steps[0]), steps[1..]);
      case HumanReset =>
        ResetValid(p, w);
        RunKeeps(p, Next(p, w, steps[0]), steps[1..]);
    }
  }

  lemma ResetValid(p: Project, w: World)
    requires Valid(p, w)
    ensures Valid(p, World(w.log + [Reset], w.st.(failures := 0)))
  {
    ResetKeeps(p, w.log, w.st);
  }

  lemma FreshValid(p: Project)
    ensures Valid(p, World([], FRESH))
  {
    assert Ids(p.name, 0) == {};
  }

  /** Conservation of rounds, the budgets and the best loss, in every state any run from a fresh project reaches. */
  lemma EveryRun(p: Project, steps: seq<Step>)
    requires RunOf(p, World([], FRESH), steps)
    ensures var w := After(p, World([], FRESH), steps);
            && Valid(p, w)
            && w.st.round == w.st.experimentsRun + |w.st.open| + |CulledIds(w.log)|
  {
    FreshValid(p);
    RunKeeps(p, World([], FRESH), steps);
    var w := After(p, World([], FRESH), steps);
    hide After, RunOf, BestOf, Ids, CulledIds, DrainedIds;
    IdsCount(p.name, w.st.round);
    assert |w.st.open| == |w.st.open.Keys|;
    assert |w.st.open.Keys + DrainedIds(w.log)| == |w.st.open.Keys| + |DrainedIds(w.log)|;
    assert |w.st.open.Keys + DrainedIds(w.log) + CulledIds(w.log)|
        == |w.st.open.Keys + DrainedIds(w.log)| + |CulledIds(w.log)|;
  }
}
