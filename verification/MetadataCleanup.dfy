/** The janitor of the metadata database: orphaned executions are marked failed, and old failed ones are deleted with
    their dependent rows. */
module MetadataCleanup {
  import opened Values

  datatype Execution = Execution(typeId: int, state: int, created: int)
  datatype Context = Context(typeId: int, name: string)
  datatype EventPath = EventPath(eventId: int, step: int)
  datatype Association = Association(contextId: int, executionId: int)
  datatype Property = Property(executionId: int, name: string)

  /** The tables; `events` maps an event to its execution. */
  datatype Db = Db(
    types: map<int, string>,
    executions: map<int, Execution>,
    contexts: map<int, Context>,
    events: map<int, int>,
    eventPaths: set<EventPath>,
    associations: set<Association>,
    properties: set<Property>)

  const RUNNING := 2
  const FAILED := 4
  const RETENTION := 10
  const MAX_ORPHANS := 500
  const PRUNABLE := ["system.DAGExecution", "system.ContainerExecution"]

  /** No dependent row points at a row that is not there. */
  ghost predicate Intact(db: Db) {
    && (forall e :: e in db.events ==> db.events[e] in db.executions)
    && (forall p :: p in db.eventPaths ==> p.eventId in db.events)
    && (forall a :: a in db.associations ==> a.executionId in db.executions)
    && (forall p :: p in db.properties ==> p.executionId in db.executions)
  }

  predicate IsType(db: Db, id: int, name: string)
    requires id in db.executions
  {
    db.executions[id].typeId in db.types && db.types[db.executions[id].typeId] == name
  }

  function FailedOf(db: Db, name: string): set<int> {
    set id | id in db.executions && db.executions[id].state == FAILED && IsType(db, id, name)
  }

  // ----- pruning -----

  /** The tables without some executions and everything that depends on them. */
  function Without(db: Db, ids: set<int>): Db {
    db.(executions := db.executions - ids,
        events := map e | e in db.events && db.events[e] !in ids :: db.events[e],
        eventPaths := set p | p in db.eventPaths && !(p.eventId in db.events && db.events[p.eventId] in ids) :: p,
        associations := set a | a in db.associations && a.executionId !in ids :: a,
        properties := set p | p in db.properties && p.executionId !in ids)
  }

  function Min(a: int, b: int): int { if a <= b then a else b }

  /** `ids` are failed executions of the type, all but the newest RETENTION of them. */
  ghost predicate Excess(db: Db, name: string, ids: set<int>) {
    && ids <= FailedOf(db, name)
    && |FailedOf(db, name) - ids| == Min(RETENTION, |FailedOf(db, name)|)
    && forall kept, id :: kept in FailedOf(db, name) - ids && id in ids
         ==> db.executions[kept].created >= db.executions[id].created
  }

  /** What came through of the listing of the excess, newest first, when reading it breaks off: the source does not look
      at the listing's error, so it deletes just these. */
  ghost predicate Listed(db: Db, all: set<int>, ids: set<int>)
    requires all <= db.executions.Keys
  {
    && ids <= all
    && forall id, unread :: id in ids && unread in all - ids ==> db.executions[id].created >= db.executions[unread].created
  }

  /** The rows read of the excess `all`: every one, or as many as came before reading broke off. */
  ghost predicate Selected(db: Db, name: string, broken: Option<nat>, all: set<int>, ids: set<int>) {
    && Excess(db, name, all) && Listed(db, all, ids)
    && |ids| == (if broken.None? then |all| else Min(broken.value, |all|)) && (broken.None? ==> ids == all)
  }

  /** One type pruned; `whole` says that its listing came through to the end. */
  ghost predicate PrunedTo(before: Db, after: Db, name: string, whole: bool) {
    exists all, ids :: Pruning(before, after, name, whole, all, ids)
  }

  ghost predicate Pruning(before: Db, after: Db, name: string, whole: bool, all: set<int>, ids: set<int>) {
    && Excess(before, name, all) && Listed(before, all, ids) && (whole ==> ids == all) && after == Without(before, ids)
  }

  lemma SomeMember(ids: set<int>)
    ensures ids == {} || exists id :: id in ids
  {
    if forall id :: id !in ids { assert ids == {}; }
  }

  lemma WithoutIntact(db: Db, ids: set<int>)
    requires Intact(db)
    ensures Intact(Without(db, ids))
  {
  }

  /** What `FailedOf` and the constants say in the database's own numbers. */
  lemma FailedAre(db: Db, name: string, id: int)
    ensures id in FailedOf(db, name)
       <==> id in db.executions && db.executions[id].state == 4 && db.executions[id].typeId in db.types.Keys
            && db.types[db.executions[id].typeId] == name
  {
  }

  /** Of the rows that depend on executions exactly those are left, as they were, whose execution is; contexts stay. */
  ghost predicate RowsLeft(before: Db, after: Db) {
    && (forall a :: a in after.associations <==> a in before.associations && a.executionId in after.executions)
    && (forall p :: p in after.properties <==> p in before.properties && p.executionId in after.executions)
    && (forall e :: e in before.events && before.events[e] in after.executions ==> e in after.events)
    && (forall e :: e in after.events ==>
          e in before.events && after.events[e] == before.events[e] && before.events[e] in after.executions)
    && (forall p :: p in after.eventPaths <==> p in before.eventPaths && p.eventId in after.events)
    && after.contexts == before.contexts
  }

  lemma WithoutLeaves(db: Db, ids: set<int>)
    requires Intact(db)
    ensures RowsLeft(db, Without(db, ids))
    ensures forall id :: id in Without(db, ids).executions <==> id in db.executions && id !in ids
    ensures forall id :: id in Without(db, ids).executions ==> Without(db, ids).executions[id] == db.executions[id]
  {
  }

  lemma LeftFurther(a: Db, b: Db, c: Db)
    requires RowsLeft(a, b) && RowsLeft(b, c) && forall id :: id in c.executions ==> id in b.executions
    ensures RowsLeft(a, c)
  {
    forall e | e in a.events && a.events[e] in c.executions ensures e in c.events {
      var id := a.events[e];
      assert id in c.executions && id in b.executions;
    }
  }

  class Store {
    var db: Db

    constructor (db: Db)
      ensures this.db == db
    {
      this.db := db;
    }

    /** The failed executions of a type, oldest last; the first RETENTION of them are skipped. Ties in age come in any
        order. Reading may break off after some rows, unnoticed. */
    method SelectExcess(name: string, broken: Option<nat>) returns (ids: set<int>)
      ensures exists all :: Selected(db, name, broken, all, ids)
    {
      var all := SkipNewest(FailedOf(db, name));
      ids := ReadNewest(all, broken);
      assert Selected(db, name, broken, all, ids);
    }

    method ReadNewest(excess: set<int>, broken: Option<nat>) returns (ids: set<int>)
      requires excess <= db.executions.Keys
      ensures Listed(db, excess, ids)
      ensures broken.None? ==> ids == excess
      ensures broken.Some? ==> |ids| == Min(broken.value, |excess|)
    {
      var rest := excess;
      ids := {};
      while rest != {} && (broken.None? || |ids| < broken.value)
        invariant rest + ids == excess && rest !! ids
        invariant forall id, unread :: id in ids && unread in rest ==> db.executions[id].created >= db.executions[unread].created
        invariant broken.Some? ==> |ids| <= broken.value
        decreases rest
      {
        var id := NewestOf(rest);
        rest := rest - {id};
        ids := ids + {id};
      }
      assert excess - ids == rest;
      assert |excess| == |ids| + |rest|;
    }

    method SkipNewest(failed: set<int>) returns (ids: set<int>)
      requires failed <= db.executions.Keys
      ensures ids <= failed && |failed - ids| == Min(RETENTION, |failed|)
      ensures forall kept, id :: kept in failed - ids && id in ids ==> db.executions[kept].created >= db.executions[id].created
    {
      ids := failed;
      ghost var kept: set<int> := {};
      var offset := 0;
      while offset < RETENTION && ids != {}
        invariant 0 <= offset <= RETENTION && |kept| == offset
        invariant ids + kept == failed && ids !! kept
        invariant forall k, id :: k in kept && id in ids ==> db.executions[k].created >= db.executions[id].created
      {
        var id := NewestOf(ids);
        ids := ids - {id};
        kept := kept + {id};
        offset := offset + 1;
      }
      assert failed - ids == kept;
      assert |failed| == |ids| + |kept|;
    }

    method NewestOf(ids: set<int>) returns (id: int)
      requires ids != {} && ids <= db.executions.Keys
      ensures id in ids && forall k :: k in ids ==> db.executions[id].created >= db.executions[k].created
    {
      SomeMember(ids);
      id :| id in ids;
      var rest := ids - {id};
      while rest != {}
        invariant id in ids && rest <= ids
        invariant forall k :: k in ids && k !in rest ==> db.executions[id].created >= db.executions[k].created
        decreases rest
      {
        SomeMember(rest);
        var k :| k in rest;
        rest := rest - {k};
        if db.executions[k].created > db.executions[id].created { id := k; }
      }
    }

    /** One transaction: dependent rows go before the rows they point at, so that no statement leaves a dangling
        reference; `fails` tells which statement fails, or the commit, if any. A failure rolls everything back. */
    method DeleteExcess(ids: set<int>, fails: Option<nat>) returns (rows: nat, ok: bool)
      modifies this
      ensures ok <==> !(fails.Some? && fails.value <= 5)
      ensures db == if ok then Without(old(db), ids) else old(db)
      ensures ok && Intact(old(db)) ==> RowsLeft(old(db), db) && db.executions == old(db).executions - ids
      ensures rows == if ok then |old(db).executions.Keys * ids| else 0
    {
      hide RowsLeft;
      var before := db;
      rows, ok := 0, false;
      if fails == Some(0) { db := before; return; }
      db := db.(eventPaths := set p | p in db.eventPaths && !(p.eventId in db.events && db.events[p.eventId] in ids));
      assert Intact(before) ==> Intact(db);
      if fails == Some(1) { db := before; return; }
      db := db.(events := map e | e in db.events && db.events[e] !in ids :: db.events[e]);
      assert Intact(before) ==> Intact(db);
      if fails == Some(2) { db := before; return; }
      db := db.(associations := set a | a in db.associations && a.executionId !in ids);
      assert Intact(before) ==> Intact(db);
      if fails == Some(3) { db := before; return; }
      db := db.(properties := set p | p in db.properties && p.executionId !in ids);
      assert Intact(before) ==> Intact(db);
      if fails == Some(4) { db := before; return; }
      var affected := |db.executions.Keys * ids|;
      db := db.(executions := db.executions - ids);
      assert Intact(before) ==> Intact(db);
      if fails == Some(5) { db := before; return; }
      if Intact(before) {
        hide Intact, Without;
        WithoutLeaves(before, ids);
        assert db.executions == before.executions - ids;
      }
      rows, ok := affected, true;
    }

    /** Type by type; a failure ends the pass, and what was committed before stays. */
    method PruneOldFailed(names: seq<string>, broken: int -> Option<nat>, fails: int -> Option<nat>)
      returns (total: nat, done: nat, ok: bool, ghost states: seq<Db>)
      modifies this
      ensures done <= |names| && (ok <==> done == |names|)
      ensures Chain(states, names[..done], Whole(broken, done)) && states[0] == old(db) && states[done] == db
      ensures total == |old(db).executions| - |db.executions|
    {
      hide Excess, Without, PrunedTo;
      total, done, ok, states := 0, 0, true, [db];
      while done < |names| && ok
        invariant done <= |names| && Chain(states, names[..done], Whole(broken, done)) && states[0] == old(db) && states[done] == db
        invariant total == |old(db).executions| - |db.executions| && (!ok ==> done < |names|)
        decreases |names| - done, ok
      {
        var rows;
        rows, ok := PruneType(names[done], broken(done), fails(done));
        total := total + rows;
        if ok {
          ChainStep(states, names[..done], Whole(broken, done), db, names[done], broken(done).None?);
          assert names[..done + 1] == names[..done] + [names[done]];
          assert Whole(broken, done + 1) == Whole(broken, done) + [broken(done).None?];
          states := states + [db];
          done := done + 1;
        }
      }
    }

    /** One janitor pass over the listed candidates. Without an orphan it ends there, before any pruning; an error while
        pruning is logged and nothing more. */
    method Cleanup(candidates: seq<Candidate>, answers: int -> Answer, broken: int -> Option<nat>, fails: int -> Option<nat>)
      returns (rows: nat, orphans: set<int>, done: nat, ghost states: seq<Db>)
      requires |candidates| <= MAX_ORPHANS && forall i :: 0 <= i < |candidates| ==> IsCandidate(db, candidates[i])
      modifies this
      ensures forall id :: id in orphans <==>
                exists i :: 0 <= i < |candidates| && candidates[i].execution == id && ConfirmedBy(candidates, answers, i)
      ensures orphans == {} ==> db == old(db) && rows == 0
      ensures orphans != {} ==>
                && done <= 2 && Chain(states, ["system.DAGExecution", "system.ContainerExecution"][..done], Whole(broken, done))
                && states[0] == MarkFailed(old(db), orphans) && states[done] == db
    {
      hide IsCandidate, ConfirmedBy, PrunedTo;
      rows, done, states := 0, 0, [db];
      orphans := FindOrphans(candidates, answers);
      if orphans == {} { return; }
      rows := |orphans|;
      db := MarkFailed(db, orphans);
      var pruned, ok;
      pruned, done, ok, states := PruneOldFailed(PRUNABLE, broken, fails);
      if ok { rows := rows + pruned; }
    }

    method PruneType(name: string, broken: Option<nat>, fails: Option<nat>) returns (rows: nat, ok: bool)
      modifies this
      ensures if ok then PrunedTo(old(db), db, name, broken.None?) else db == old(db)
      ensures rows == |old(db).executions| - |db.executions|
    {
      hide Without, Excess, Listed;
      var ids := SelectExcess(name, broken);
      ghost var all :| Selected(db, name, broken, all, ids);
      ghost var before := db;
      rows, ok := 0, true;
      NothingGone(before);
      if ids != {} {
        RowsGone(before, ids);
        rows, ok := DeleteExcess(ids, fails);
      }
      if ok { assert Pruning(before, db, name, broken.None?, all, ids); }
    }
  }

  // ----- orphans -----

  /** An execution still marked running, with the pipeline run it belongs to. */
  datatype Candidate = Candidate(execution: int, run: string)

  const PIPELINE_RUN := "system.PipelineRun"

  /** A row of the join of running executions with their pipeline-run contexts. */
  ghost predicate IsCandidate(db: Db, c: Candidate) {
    && c.execution in db.executions && db.executions[c.execution].state == RUNNING
    && exists a :: a in db.associations && a.executionId == c.execution && a.contextId in db.contexts
         && db.contexts[a.contextId].name == c.run
         && db.contexts[a.contextId].typeId in db.types && db.types[db.contexts[a.contextId].typeId] == PIPELINE_RUN
  }

  /** What the pipeline service answers for a run. */
  datatype Answer = Gone | Unavailable | State(state: string)

  predicate Over(a: Answer) { a.Gone? || (a.State? && a.state in {"SUCCEEDED", "FAILED", "SKIPPED", "CANCELED"}) }

  /** The first answer about the run of a candidate that was not an error, among the first `n` questions. */
  ghost function Verdict(candidates: seq<Candidate>, answers: int -> Answer, run: string, n: nat): Option<Answer>
    requires n <= |candidates|
  {
    if n == 0 then None
    else
      var before := Verdict(candidates, answers, run, n - 1);
      if before.Some? || candidates[n - 1].run != run || answers(n - 1).Unavailable? then before else Some(answers(n - 1))
  }

  /** The executions whose run is confirmed over; a run is asked about again only while the answer is an error. */
  method FindOrphans(candidates: seq<Candidate>, answers: int -> Answer) returns (orphans: set<int>)
    ensures forall id :: id in orphans <==>
              exists i :: 0 <= i < |candidates| && candidates[i].execution == id && ConfirmedBy(candidates, answers, i)
  {
    hide Over;
    orphans := {};
    var known: map<string, bool> := map[];
    for i := 0 to |candidates|
      invariant forall run :: run in known <==> Verdict(candidates, answers, run, i).Some?
      invariant forall run :: run in known ==> known[run] == Over(Verdict(candidates, answers, run, i).value)
      invariant forall id :: id in orphans <==>
                  exists k :: 0 <= k < i && candidates[k].execution == id && ConfirmedBy(candidates, answers, k)
    {
      var c := candidates[i];
      ghost var was := orphans;
      if c.run !in known && !answers(i).Unavailable? {
        known := known[c.run := Over(answers(i))];
      }
      assert ConfirmedBy(candidates, answers, i) <==> c.run in known && known[c.run];
      if c.run in known && known[c.run] {
        orphans := orphans + {c.execution};
      }
      forall id ensures id in orphans <==> exists k :: 0 <= k < i + 1 && candidates[k].execution == id && ConfirmedBy(candidates, answers, k) {
        if id in orphans {
          if id in was {
            var k :| 0 <= k < i && candidates[k].execution == id && ConfirmedBy(candidates, answers, k);
          } else {
            assert candidates[i].execution == id && ConfirmedBy(candidates, answers, i);
          }
        }
      }
    }
  }

  /** By the time the candidate is looked at, its run is known to be over. */
  ghost predicate ConfirmedBy(candidates: seq<Candidate>, answers: int -> Answer, i: int)
    requires 0 <= i < |candidates|
  {
    var v := Verdict(candidates, answers, candidates[i].run, i + 1);
    v.Some? && Over(v.value)
  }

  function MarkFailed(db: Db, ids: set<int>): Db {
    db.(executions := map id | id in db.executions ::
          if id in ids then db.executions[id].(state := FAILED) else db.executions[id])
  }

  /** An answer that is not an error is about the run it was asked for. */
  lemma {:induction false} VerdictIsAnswer(candidates: seq<Candidate>, answers: int -> Answer, run: string, n: nat)
    requires n <= |candidates|
    ensures var v := Verdict(candidates, answers, run, n);
            && (v.Some? ==> exists j :: FirstAnswer(candidates, answers, run, n, j) && answers(j) == v.value)
            && (v.None? ==> forall j :: 0 <= j < n && candidates[j].run == run ==> answers(j).Unavailable?)
  {
    if n > 0 {
      VerdictIsAnswer(candidates, answers, run, n - 1);
      var before, v := Verdict(candidates, answers, run, n - 1), Verdict(candidates, answers, run, n);
      if before.Some? {
        var j :| FirstAnswer(candidates, answers, run, n - 1, j) && answers(j) == before.value;
        assert FirstAnswer(candidates, answers, run, n, j);
      } else if v.Some? {
        assert FirstAnswer(candidates, answers, run, n, n - 1);
      }
    }
  }

  /** The first question about the run that was answered. */
  ghost predicate FirstAnswer(candidates: seq<Candidate>, answers: int -> Answer, run: string, n: nat, j: int)
    requires n <= |candidates|
  {
    && 0 <= j < n && candidates[j].run == run && !answers(j).Unavailable?
    && forall i :: 0 <= i < j && candidates[i].run == run ==> answers(i).Unavailable?
  }

  /** A run is over when the service no longer has it or calls it ended. */
  lemma OverIs(a: Answer)
    ensures Over(a) <==> a == Gone || (a.State? && (a.state == "SUCCEEDED" || a.state == "FAILED" || a.state == "SKIPPED" || a.state == "CANCELED"))
  {
  }

  /** Exactly the orphans are marked failed, which were running and of which the service itself said that their pipeline
      run is over or gone; every other row of every table is left alone. */
  lemma OnlyOrphansFail(db: Db, candidates: seq<Candidate>, answers: int -> Answer, orphans: set<int>)
    requires forall i :: 0 <= i < |candidates| ==> IsCandidate(db, candidates[i])
    requires forall id :: id in orphans <==>
               exists i :: 0 <= i < |candidates| && candidates[i].execution == id && ConfirmedBy(candidates, answers, i)
    ensures MarkFailed(db, orphans).(executions := db.executions) == db
    ensures MarkFailed(db, orphans).executions.Keys == db.executions.Keys && orphans <= db.executions.Keys
    ensures forall id :: id in db.executions ==>
              MarkFailed(db, orphans).executions[id] == if id in orphans then db.executions[id].(state := 4) else db.executions[id]
    ensures forall id :: id in orphans ==>
              && db.executions[id].state == 2
              && exists j :: 0 <= j < |candidates| && Over(answers(j)) && IsCandidate(db, Candidate(id, candidates[j].run))
    ensures Intact(db) ==> Intact(MarkFailed(db, orphans))
  {
    hide IsCandidate, Over;
    var after := MarkFailed(db, orphans);
    forall id | id in orphans
      ensures id in db.executions && db.executions[id].state == RUNNING
      ensures exists j :: 0 <= j < |candidates| && Over(answers(j)) && IsCandidate(db, Candidate(id, candidates[j].run))
    {
      var i :| 0 <= i < |candidates| && candidates[i].execution == id && ConfirmedBy(candidates, answers, i);
      VerdictIsAnswer(candidates, answers, candidates[i].run, i + 1);
      var j :| FirstAnswer(candidates, answers, candidates[i].run, i + 1, j)
            && answers(j) == Verdict(candidates, answers, candidates[i].run, i + 1).value;
      assert candidates[i] == Candidate(id, candidates[j].run);
      CandidateRuns(db, candidates[i]);
    }
  }

  lemma CandidateRuns(db: Db, c: Candidate)
    requires IsCandidate(db, c)
    ensures c.execution in db.executions && db.executions[c.execution].state == RUNNING
  {
  }

  // ----- the pass -----

  ghost function Whole(broken: int -> Option<nat>, done: nat): seq<bool> { seq(done, i => broken(i).None?) }

  /** The successive states of the tables, one type pruned after the other. */
  ghost predicate Chain(states: seq<Db>, names: seq<string>, whole: seq<bool>) {
    && |states| == |names| + 1 && |whole| == |names|
    && forall i :: 0 <= i < |names| ==> PrunedTo(states[i], states[i + 1], names[i], whole[i])
  }

  lemma ChainStep(states: seq<Db>, names: seq<string>, whole: seq<bool>, db: Db, name: string, last: bool)
    requires Chain(states, names, whole) && PrunedTo(states[|names|], db, name, last)
    ensures Chain(states + [db], names + [name], whole + [last])
  {
    hide PrunedTo;
    var more := states + [db];
    forall i | 0 <= i <= |names| ensures PrunedTo(more[i], more[i + 1], (names + [name])[i], (whole + [last])[i]) {
      if i < |names| { assert PrunedTo(states[i], states[i + 1], names[i], whole[i]); }
    }
  }

  lemma RowsGone(db: Db, ids: set<int>)
    ensures Without(db, ids).executions.Keys <= db.executions.Keys
    ensures |Without(db, ids).executions| == |db.executions| - |db.executions.Keys * ids|
  {
    var after := db.executions - ids;
    assert after.Keys == db.executions.Keys - ids;
    assert db.executions.Keys == (db.executions.Keys - ids) + db.executions.Keys * ids;
    assert |after| == |after.Keys| && |db.executions| == |db.executions.Keys|;
  }

  lemma NothingGone(db: Db)
    ensures Without(db, {}) == db
  {
    assert db.executions - {} == db.executions;
    assert Without(db, {}).events == db.events;
    assert Without(db, {}).eventPaths == db.eventPaths;
    assert Without(db, {}).associations == db.associations;
    assert Without(db, {}).properties == db.properties;
  }

  /** What one type's pruning leaves: some newest RETENTION failed executions of the type, or all if fewer, are kept;
      every other execution is as it was; no reference is newly dangling; and exactly those are left when the listing
      came through whole. */
  lemma PrunedIs(before: Db, after: Db, name: string, whole: bool) returns (kept: set<int>)
    requires PrunedTo(before, after, name, whole)
    ensures kept <= FailedOf(after, name)
    ensures |kept| == if |FailedOf(before, name)| < 10 then |FailedOf(before, name)| else 10
    ensures forall k, id :: k in kept && id in FailedOf(before, name) - kept ==> before.executions[k].created >= before.executions[id].created
    ensures forall gone, id :: gone in FailedOf(before, name) && gone !in after.executions && id in FailedOf(after, name) - kept
              ==> before.executions[gone].created >= before.executions[id].created
    ensures whole ==> FailedOf(after, name) == kept
    ensures Untouched(before, after, name) && (Intact(before) ==> RowsLeft(before, after))
  {
    hide Without, FailedOf, Untouched, Intact, RowsLeft;
    var all, ids :| Pruning(before, after, name, whole, all, ids);
    if Intact(before) { WithoutLeaves(before, ids); }
    kept := FailedOf(before, name) - all;
    FailedWithout(before, name, ids);
  }

  lemma FailedWithout(db: Db, name: string, ids: set<int>)
    requires ids <= FailedOf(db, name)
    ensures FailedOf(Without(db, ids), name) == FailedOf(db, name) - ids
    ensures Untouched(db, Without(db, ids), name)
    ensures forall id :: id in FailedOf(db, name) ==> (id in db.executions && (id !in Without(db, ids).executions <==> id in ids))
  {
    if Intact(db) { WithoutIntact(db, ids); }
    hide Intact;
  }

  /** Only failed executions of the type are gone, and nothing else changed. */
  ghost predicate Untouched(before: Db, after: Db, name: string) {
    && (forall id :: id in after.executions ==> id in before.executions && after.executions[id] == before.executions[id])
    && (forall id :: id in before.executions && id !in after.executions ==> id in FailedOf(before, name))
    && after.types == before.types && (Intact(before) ==> Intact(after))
  }

  /** How many are left: the retained ones and the unread ones, of which none is newer than a deleted one. So exactly
      the retained are left if and only if every row of the excess was read. */
  lemma BrokenListing(before: Db, after: Db, name: string, all: set<int>, ids: set<int>)
    requires Pruning(before, after, name, false, all, ids)
    ensures |FailedOf(after, name)| == Min(RETENTION, |FailedOf(before, name)|) + |all| - |ids|
    ensures FailedOf(after, name) == (FailedOf(before, name) - all) + (all - ids)
  {
    hide Intact, FailedOf, Without, Untouched;
    var failed := FailedOf(before, name);
    FailedWithout(before, name, ids);
    assert failed - ids == (failed - all) + (all - ids);
    assert |all| == |all - ids| + |ids| by { assert all == (all - ids) + ids; }
  }

  /** Other types keep theirs. */
  lemma PrunedOther(before: Db, after: Db, name: string, whole: bool, other: string)
    requires PrunedTo(before, after, name, whole) && name != other
    ensures FailedOf(after, other) == FailedOf(before, other)
  {
    hide PrunedTo;
    var kept := PrunedIs(before, after, name, whole);
  }

  /** What is true of an execution table after pruning some types. */
  ghost predicate Retained(first: Db, last: Db, names: seq<string>) {
    && last.types == first.types
    && (forall id :: id in last.executions ==> id in first.executions && last.executions[id] == first.executions[id])
    && (forall id :: id in first.executions && id !in last.executions ==> exists i :: 0 <= i < |names| && id in FailedOf(first, names[i]))
    && (forall other :: other !in names ==> FailedOf(last, other) == FailedOf(first, other))
  }

  /** The newest RETENTION failed executions of the type remain, and nothing but these if the listing came whole. */
  ghost predicate NewestLeft(first: Db, last: Db, name: string, whole: bool) {
    exists kept :: NewestKept(first, last, name, whole, kept)
  }

  ghost predicate NewestKept(first: Db, last: Db, name: string, whole: bool, kept: set<int>) {
    && kept <= FailedOf(last, name) && |kept| == Min(RETENTION, |FailedOf(first, name)|)
    && (whole ==> FailedOf(last, name) == kept)
    && forall k, id :: k in kept && id in FailedOf(first, name) - kept ==>
         k in first.executions && first.executions[k].created >= first.executions[id].created
  }

  /** A pass over distinct types: only failed executions of those types go, every other row of the table stays as it
      was, each type keeps its newest, exactly these where its listing came through whole, and no reference dangles that
      did not before. */
  lemma {:induction false} ChainIs(states: seq<Db>, names: seq<string>, whole: seq<bool>)
    requires Chain(states, names, whole)
    requires forall i, j :: 0 <= i < j < |names| ==> names[i] != names[j]
    ensures Intact(states[0]) ==> Intact(states[|names|]) && RowsLeft(states[0], states[|names|])
    ensures Retained(states[0], states[|names|], names)
    ensures forall i :: 0 <= i < |names| ==> NewestLeft(states[0], states[|names|], names[i], whole[i])
  {
    hide Intact, PrunedTo, NewestLeft, Retained, RowsLeft;
    if |names| == 0 {
      RetainedNone(states[0]);
      WithoutNone(states[0]);
    } else {
      var k := |names| - 1;
      assert Chain(states[..|states| - 1], names[..k], whole[..k]);
      ChainIs(states[..|states| - 1], names[..k], whole[..k]);
      assert names == names[..k] + [names[k]];
      var first, mid, last := states[0], states[k], states[|names|];
      assert PrunedTo(mid, last, names[k], whole[k]);
      RetainedStep(first, mid, last, names[..k], names[k], whole[k]);
      forall i | 0 <= i < k ensures NewestLeft(first, last, names[i], whole[i]) {
        assert NewestLeft(first, mid, names[..k][i], whole[..k][i]);
        NewestStill(first, mid, last, names[i], whole[i], names[k], whole[k]);
      }
      NewestNow(first, mid, last, names[..k], names[k], whole[k]);
      var kept := PrunedIs(mid, last, names[k], whole[k]);
      if Intact(first) {
        assert RowsLeft(first, mid) && RowsLeft(mid, last);
        LeftFurther(first, mid, last);
      }
    }
  }

  lemma WithoutNone(db: Db)
    ensures Intact(db) ==> RowsLeft(db, db)
  {
  }

  lemma RetainedNone(db: Db)
    ensures Retained(db, db, [])
  {
  }

  lemma RetainedStep(first: Db, mid: Db, last: Db, names: seq<string>, name: string, whole: bool)
    requires Retained(first, mid, names) && PrunedTo(mid, last, name, whole) && name !in names
    ensures Retained(first, last, names + [name])
  {
    hide PrunedTo, FailedOf, Intact;
    var kept := PrunedIs(mid, last, name, whole);
    var all := names + [name];
    assert FailedOf(mid, name) == FailedOf(first, name);
    forall id | id in first.executions && id !in last.executions ensures exists i :: 0 <= i < |all| && id in FailedOf(first, all[i]) {
      if id in mid.executions {
        assert id in FailedOf(first, all[|names|]);
      } else {
        var i :| 0 <= i < |names| && id in FailedOf(first, names[i]);
        assert id in FailedOf(first, all[i]);
      }
    }
    forall other | other !in all ensures FailedOf(last, other) == FailedOf(first, other) {
      assert name in all && forall n :: n in names ==> n in all;
      PrunedOther(mid, last, name, whole, other);
    }
  }

  lemma NewestStill(first: Db, mid: Db, last: Db, name: string, whole: bool, other: string, otherWhole: bool)
    requires NewestLeft(first, mid, name, whole) && PrunedTo(mid, last, other, otherWhole) && name != other
    ensures NewestLeft(first, last, name, whole)
  {
    hide PrunedTo, FailedOf;
    PrunedOther(mid, last, other, otherWhole, name);
    var kept :| NewestKept(first, mid, name, whole, kept);
    assert NewestKept(first, last, name, whole, kept);
  }

  lemma NewestNow(first: Db, mid: Db, last: Db, names: seq<string>, name: string, whole: bool)
    requires Retained(first, mid, names) && PrunedTo(mid, last, name, whole) && name !in names
    ensures NewestLeft(first, last, name, whole)
  {
    hide PrunedTo, Intact;
    var kept := PrunedIs(mid, last, name, whole);
    assert FailedOf(mid, name) == FailedOf(first, name);
    assert NewestKept(first, last, name, whole, kept);
  }
}
