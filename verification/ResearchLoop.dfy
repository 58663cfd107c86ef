/** The controller's pass over a project, updating the fetched copy of the status step by step. */
module ResearchLoop {
  import opened Values
  import opened RunIds
  import opened Losses
  import opened AutoResearch
  import opened DrainOrders

  class Controller {
    const p: Project
    /** What the API server holds. */
    var stored: Status
    /** The copy this pass works on. */
    var status: Status
    ghost var storedLog: seq<Event>
    ghost var log: seq<Event>

    ghost predicate Sound()
      reads this
    {
      Valid(p, World(storedLog, stored))
    }

    constructor (project: Project)
      ensures p == project && stored == FRESH && storedLog == [] && Sound()
    {
      p := project;
      stored, status, storedLog, log := FRESH, FRESH, [], [];
      new;
      FreshValid(project);
    }

    /** The first record of the run gets its result. */
    method CompleteRecord(id: string, loss: Option<real>, kept: bool)
      modifies this`status
      ensures status == old(status).(recent := Complete(old(status).recent, id, loss, kept))
    {
      hide Micro, Complete;
      var i := 0;
      while i < |status.recent|
        invariant 0 <= i <= |status.recent| && status == old(status)
        invariant forall k :: 0 <= k < i ==> status.recent[k].runId != id
      {
        if status.recent[i].runId == id {
          CompleteAt(status.recent, id, loss, kept, i);
          var r := status.recent[i].(kept := Some(kept));
          if loss.Some? { r := r.(loss := Measured(Micro(loss.value))); }
          status := status.(recent := status.recent[i := r]);
          return;
        }
        i := i + 1;
      }
      CompleteAt(status.recent, id, loss, kept, i);
    }

    /** One finished run is recorded, counted and released. */
    method Finish(id: string, loss: Option<real>)
      modifies this`status, this`log
      ensures status == Drained(p, old(status), id, loss)
      ensures log == old(log) + [Drain(id, loss)]
    {
      hide Complete, Micro;
      var kept := loss.Some? && IsImprovement(status.best, Minimizes(p.direction), loss.value);
      CompleteRecord(id, loss, kept);
      status := status.(experimentsRun := status.experimentsRun + 1);
      if kept {
        status := status.(experimentsKept := status.experimentsKept + 1, best := Some(Micro(loss.value)), bestRun := id);
      }
      if loss.Some? {
        status := status.(failures := 0);
      } else {
        status := status.(failures := status.failures + 1);
      }
      status := status.(open := status.open - {id}, startedAt := status.startedAt - {id});
      log := log + [Drain(id, loss)];
    }

    /** Polls every open run once. */
    method DrainOpenJobs(reports: map<string, Report>, now: int) returns (completed: bool, ghost order: seq<string>)
      modifies this`status, this`log
      ensures OrderOf(order, old(status).open.Keys)
      ensures World(log, status) == DrainAll(p, old(World(log, status)), order, reports, now)
      ensures |log| >= |old(log)| && (completed <==> log != old(log))
      ensures EndsLogged(p, old(status).startedAt, old(status).open.Keys, reports, now, old(log), log)
    {
      hide Drained, OutcomeOf, IsRunTerminal;
      completed, order := false, [];
      var todo := status.open.Keys;
      ghost var start := World(log, status);
      while todo != {}
        invariant Visited(order, todo, start.st.open.Keys)
        invariant World(log, status) == DrainAll(p, start, order, reports, now)
        invariant |log| >= |start.log| && (completed <==> |log| > |start.log|) && (!completed ==> log == start.log)
        decreases todo
      {
        var id :| id in todo;
        VisitOne(order, todo, start.st.open.Keys, id);
        assert (order + [id])[..|order|] == order;
        todo := todo - {id};
        order := order + [id];
        match OutcomeOf(p, status.startedAt, id, reports, now)
        case StillOpen =>
        case Failed => Finish(id, None); completed := true;
        case Succeeded(x) => Finish(id, Some(x)); completed := true;
      }
      OrderSet(order, start.st.open.Keys);
      DrainedEvents(p, start, order, reports, now);
    }

    /** Drops every open run that was submitted against another pipeline version. */
    method CullStaleOpenRuns(reports: map<string, Report>, version: string) returns (culled: nat, ghost order: seq<string>)
      modifies this`status, this`log
      ensures OrderOf(order, old(status).open.Keys)
      ensures World(log, status) == CullAll(p, old(World(log, status)), order, reports, version)
      ensures |log| == |old(log)| + culled && (culled == 0 ==> log == old(log))
    {
      hide ExtractRound;
      culled, order := 0, [];
      var todo := status.open.Keys;
      ghost var start := World(log, status);
      while todo != {}
        invariant Visited(order, todo, start.st.open.Keys)
        invariant World(log, status) == CullAll(p, start, order, reports, version)
        invariant |log| == |start.log| + culled && (culled == 0 ==> log == start.log)
        decreases todo
      {
        var id :| id in todo;
        VisitOne(order, todo, start.st.open.Keys, id);
        assert (order + [id])[..|order|] == order;
        todo := todo - {id};
        order := order + [id];
        if Stale(id, reports, version) {
          status := status.(open := status.open - {id});
          status := status.(recent := status.recent + [Record(ExtractRound(id, p.name), id, Superseded, Some(false))]);
          log := log + [Cull(id)];
          culled := culled + 1;
        }
      }
    }

    /** Drains, then culls unless the pipeline's version is unknown. */
    method Observe(x: Inputs) returns (completed: bool, ghost drainOrder: seq<string>, ghost cullOrder: seq<string>)
      modifies this`status, this`log
      ensures Orders(p, old(World(log, status)), x, drainOrder, cullOrder)
      ensures World(log, status) == Observed(p, old(World(log, status)), x, drainOrder, cullOrder)
      ensures completed <==> log != old(log)
    {
      hide DrainAll, CullAll;
      completed, drainOrder := DrainOpenJobs(x.drainReports, x.now);
      cullOrder := SomeOrder(status.open.Keys);
      if x.version.Some? && x.version.value != "" {
        var culled;
        culled, cullOrder := CullStaleOpenRuns(x.cullReports, x.version.value);
        if culled > 0 { completed := true; }
      }
    }

    /** The bookkeeping of a new round. */
    method Submit(dspRun: string, now: int)
      modifies this`status, this`log
      ensures status == Submitted(p, old(status), dspRun, now)
      ensures log == old(log) + [Event.Submit(RunId(p.name, old(status).round + 1))]
    {
      hide RunId;
      var round := status.round + 1;
      var id := RunId(p.name, round);
      status := status.(open := status.open[id := dspRun], startedAt := status.startedAt[id := now]);
      status := status.(lastCycle := Some(now), round := round);
      status := status.(recent := Prepend(status.recent, Record(round, id, Pending, None)));
      log := log + [Event.Submit(id)];
    }

    /** One pass: fetch, drain, cull, the gates, submit, save. */
    method Reconcile(x: Inputs) returns (ghost drainOrder: seq<string>, ghost cullOrder: seq<string>)
      modifies this
      ensures Orders(p, old(World(storedLog, stored)), x, drainOrder, cullOrder)
      ensures World(storedLog, stored) == Pass(p, old(World(storedLog, stored)), x, drainOrder, cullOrder)
      ensures old(Sound()) ==> Sound()
    {
      hide Explains, WithinLimits, Observed, RunId, Submitted, Orders;
      status, log := stored, storedLog;
      ghost var before := World(storedLog, stored);
      var completed;
      completed, drainOrder, cullOrder := Observe(x);
      if Sound() { PassKeeps(p, before, x, drainOrder, cullOrder); }
      if status.experimentsRun >= p.limits.Total() {
        Save(x.saved);
        return;
      }
      if !completed && status.lastCycle.Some? && x.now < status.lastCycle.value + p.limits.Cadence() {
        return;
      }
      if |status.open| >= p.limits.Concurrent() {
        return;
      }
      if status.failures >= p.limits.Failures() || !x.refsValid || !x.proposed || x.dspRun.None? {
        Save(x.saved);
        return;
      }
      Submit(x.dspRun.value, x.now);
      Save(x.saved);
    }

    /** The update reaches the API server or not. */
    method Save(saved: bool)
      modifies this`stored, this`storedLog
      ensures World(storedLog, stored) == if saved then World(log, status) else old(World(storedLog, stored))
    {
      if saved {
        stored, storedLog := status, log;
      }
    }

    /** A human closes the circuit breaker. */
    method ResetFailures()
      modifies this`stored, this`storedLog
      ensures stored == old(stored).(failures := 0) && storedLog == old(storedLog) + [Reset]
      ensures old(Sound()) ==> Sound()
    {
      hide Valid;
      if Sound() { ResetValid(p, World(storedLog, stored)); }
      stored, storedLog := stored.(failures := 0), storedLog + [Reset];
    }
  }

  /** Completing touches the first record with that run id and nothing else. */
  lemma {:induction false} CompleteAt(recent: seq<Record>, id: string, loss: Option<real>, kept: bool, i: nat)
    requires i <= |recent| && forall k :: 0 <= k < i ==> recent[k].runId != id
    ensures i == |recent| ==> Complete(recent, id, loss, kept) == recent
    ensures i < |recent| && recent[i].runId == id
        ==> Complete(recent, id, loss, kept) == recent[i := Completed(recent[i], loss, kept)]
    ensures i < |recent| ==>
              Completed(recent[i], loss, kept)
              == Record(recent[i].round, recent[i].runId, if loss.Some? then Measured(Micro(loss.value)) else recent[i].loss, Some(kept))
  {
    assert i < |recent| ==> Completed(recent[i], loss, kept).round == recent[i].round;
    hide Completed, Micro;
    if |recent| > 0 {
      var rest := recent[1..];
      assert recent == [recent[0]] + rest;
      if 0 < i {
        assert forall k :: 0 <= k < i - 1 ==> rest[k] == recent[k + 1];
        CompleteAt(rest, id, loss, kept, i - 1);
        assert Complete(recent, id, loss, kept) == [recent[0]] + Complete(rest, id, loss, kept);
        hide Complete;
        assert i < |recent| ==> recent[i := Completed(recent[i], loss, kept)] == [recent[0]] + rest[i - 1 := Completed(rest[i - 1], loss, kept)];
      }
    }
  }

  /** The part of an iteration order already behind us, and the keys still ahead. */
  ghost predicate Visited(order: seq<string>, todo: set<string>, keys: set<string>) {
    && todo <= keys
    && (forall id :: id in order <==> id in keys && id !in todo)
    && forall i, j :: 0 <= i < j < |order| ==> order[i] != order[j]
  }

  lemma VisitOne(order: seq<string>, todo: set<string>, keys: set<string>, id: string)
    requires Visited(order, todo, keys) && id in todo
    ensures Visited(order + [id], todo - {id}, keys)
  {
  }

  ghost method SomeOrder(keys: set<string>) returns (order: seq<string>)
    ensures OrderOf(order, keys)
  {
    order := [];
    var todo := keys;
    while todo != {}
      invariant Visited(order, todo, keys)
      decreases todo
    {
      var id :| id in todo;
      VisitOne(order, todo, keys, id);
      order, todo := order + [id], todo - {id};
    }
  }
}
