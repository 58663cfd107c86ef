/** Declared schedules: the plan that makes a cron table hold them, and what a pass of it leaves behind. */
module Schedules {
  import opened Values
  import opened Text

  datatype Schedule = Schedule(name: string, cron: string, message: string)

  datatype Job = Job(id: string, name: string, agentId: string, expr: string, message: string)

  datatype Op =
    | Add(name: string, cron: string, message: string)
    | Edit(name: string, id: string, cron: string, message: string)
    | Rm(name: string, id: string)

  /** The gateway's jobs by id. */
  type Table = map<string, Job>

  predicate Visible(agent: string, j: Job) { j.agentId == agent || j.agentId == "" }

  /** The table is kept by the jobs' own ids. */
  ghost predicate Keyed(table: Table) { forall id :: id in table ==> table[id].id == id }

  // ----- planning -----

  predicate Differs(agent: string, s: Schedule, j: Job) {
    TrimSpace(j.expr) != TrimSpace(s.cron) || TrimSpace(j.message) != TrimSpace(s.message)
    || (j.agentId != "" && j.agentId != agent)
  }

  function OpFor(agent: string, s: Schedule, index: map<string, Job>): seq<Op> {
    if s.name !in index then [Add(s.name, TrimSpace(s.cron), TrimSpace(s.message))]
    else if Differs(agent, s, index[s.name]) then [Edit(s.name, index[s.name].id, TrimSpace(s.cron), TrimSpace(s.message))]
    else []
  }

  function DeclaredOps(agent: string, declared: seq<Schedule>, index: map<string, Job>): seq<Op> {
    if |declared| == 0 then [] else
    DeclaredOps(agent, declared[..|declared| - 1], index) + OpFor(agent, declared[|declared| - 1], index)
  }

  function Names(declared: seq<Schedule>): seq<string> { seq(|declared|, i requires 0 <= i < |declared| => declared[i].name) }

  function RemovalOps(declared: seq<Schedule>, names: seq<string>, index: map<string, Job>): seq<Op> {
    if |names| == 0 then [] else
    var n := names[|names| - 1];
    RemovalOps(declared, names[..|names| - 1], index) + if n !in Names(declared) && n in index then [Rm(n, index[n].id)] else []
  }

  /** The commands for the declared schedules and for the names, in the given order, declared the last time. */
  function Plan(agent: string, declared: seq<Schedule>, previous: seq<string>, index: map<string, Job>): seq<Op> {
    DeclaredOps(agent, declared, index) + RemovalOps(declared, previous, index)
  }

  // ----- running commands -----

  /** How a command went: an error, or success with the id the gateway gave a new job. */
  datatype Outcome = Failed | Done(id: string)

  predicate Succeeds(table: Table, op: Op, o: Outcome) {
    o.Done? && if op.Add? then o.id !in table else op.id in table
  }

  /** What the gateway does for a command; one that cannot be carried out fails. */
  function Execute(agent: string, table: Table, op: Op, o: Outcome): Table {
    if !Succeeds(table, op, o) then table
    else
      match op
      case Add(name, cron, message) => table[o.id := Job(o.id, name, agent, cron, message)]
      case Edit(_, id, cron, message) => table[id := table[id].(expr := cron, message := message, agentId := agent)]
      case Rm(_, id) => table - {id}
  }

  function ExecuteAll(agent: string, table: Table, ops: seq<Op>, outcomes: seq<Outcome>): Table
    requires |ops| == |outcomes|
  {
    if |ops| == 0 then table
    else
      Execute(agent, ExecuteAll(agent, table, ops[..|ops| - 1], outcomes[..|ops| - 1]), ops[|ops| - 1], outcomes[|ops| - 1])
  }

  /** The commands that took effect. */
  function Effective(agent: string, table: Table, ops: seq<Op>, outcomes: seq<Outcome>): (ok: seq<bool>)
    requires |ops| == |outcomes|
    ensures |ok| == |ops|
  {
    seq(|ops|, i requires 0 <= i < |ops| => Succeeds(ExecuteAll(agent, table, ops[..i], outcomes[..i]), ops[i], outcomes[i]))
  }

  // ----- the code -----

  /** Diffs the declared schedules against the listed jobs. */
  method PlanSchedules(agent: string, declared: seq<Schedule>, previouslyDeclared: seq<string>, jobs: seq<Job>)
    returns (ops: seq<Op>, previous: seq<string>)
    ensures SortedNames(previous) && multiset(previous) == multiset(previouslyDeclared)
    ensures ops == Plan(agent, declared, previous, LastByName(agent, jobs))
  {
    hide OpFor;
    var byName: map<string, Job> := map[];
    for i := 0 to |jobs|
      invariant byName == LastByName(agent, jobs[..i])
    {
      assert jobs[..i + 1][..i] == jobs[..i];
      if jobs[i].agentId == agent || jobs[i].agentId == "" {
        byName := byName[jobs[i].name := jobs[i]];
      }
    }
    assert jobs[..|jobs|] == jobs;
    ops := [];
    var want: set<string> := {};
    for i := 0 to |declared|
      invariant ops == DeclaredOps(agent, declared[..i], byName)
      invariant want == set n | n in Names(declared[..i])
    {
      assert declared[..i + 1][..i] == declared[..i];
      assert Names(declared[..i + 1]) == Names(declared[..i]) + [declared[i].name];
      want := want + {declared[i].name};
      var more := DiffOne(agent, declared[i], byName);
      ops := ops + more;
    }
    assert declared[..|declared|] == declared;
    previous := SortStrings(previouslyDeclared);
    for i := 0 to |previous|
      invariant ops == Plan(agent, declared, previous[..i], byName)
    {
      assert previous[..i + 1][..i] == previous[..i];
      if previous[i] !in want && previous[i] in byName {
        ops := ops + [Rm(previous[i], byName[previous[i]].id)];
      }
    }
    assert previous[..|previous|] == previous;
  }

  method DiffOne(agent: string, s: Schedule, byName: map<string, Job>) returns (ops: seq<Op>)
    ensures ops == OpFor(agent, s, byName)
  {
    var msg, cron := TrimSpace(s.message), TrimSpace(s.cron);
    ops := [];
    if s.name !in byName {
      ops := [Add(s.name, cron, msg)];
    } else {
      var j := byName[s.name];
      if TrimSpace(j.expr) != cron || TrimSpace(j.message) != msg || (j.agentId != "" && j.agentId != agent) {
        ops := [Edit(s.name, j.id, cron, msg)];
      }
    }
  }

  function LastByName(agent: string, jobs: seq<Job>): map<string, Job> {
    if |jobs| == 0 then map[]
    else
      var front, j := LastByName(agent, jobs[..|jobs| - 1]), jobs[|jobs| - 1];
      if Visible(agent, j) then front[j.name := j] else front
  }

  /** A listing of the table, in any order. */
  ghost predicate Listing(jobs: seq<Job>, table: Table) {
    && (forall i :: 0 <= i < |jobs| ==> jobs[i].id in table && table[jobs[i].id] == jobs[i])
    && (forall id :: id in table ==> exists i :: 0 <= i < |jobs| && jobs[i] == table[id])
  }

  lemma {:induction false} LastByNameIs(agent: string, jobs: seq<Job>)
    ensures forall n :: n in LastByName(agent, jobs) ==>
              LastByName(agent, jobs)[n] in jobs && LastByName(agent, jobs)[n].name == n && Visible(agent, LastByName(agent, jobs)[n])
    ensures forall i :: 0 <= i < |jobs| && Visible(agent, jobs[i]) ==> jobs[i].name in LastByName(agent, jobs)
  {
    if |jobs| > 0 {
      LastByNameIs(agent, jobs[..|jobs| - 1]);
    }
  }

  lemma EffectivePrefix(agent: string, table: Table, ops: seq<Op>, outcomes: seq<Outcome>, k: nat)
    requires |ops| == |outcomes| && k <= |ops|
    ensures Effective(agent, table, ops, outcomes)[..k] == Effective(agent, table, ops[..k], outcomes[..k])
  {
    hide Succeeds, ExecuteAll;
    assert forall i :: 0 <= i < k ==> ops[..k][..i] == ops[..i] && outcomes[..k][..i] == outcomes[..i];
  }

  lemma FailsSame(agent: string, table: Table, op: Op, o: Outcome)
    requires !Succeeds(table, op, o)
    ensures Execute(agent, table, op, o) == table
  {
  }

  predicate AllTrue(flags: seq<bool>) { forall i :: 0 <= i < |flags| ==> flags[i] }

  lemma AllTrueStep(flags: seq<bool>, flag: bool)
    ensures AllTrue(flags + [flag]) <==> AllTrue(flags) && flag
  {
    if AllTrue(flags + [flag]) {
      assert (flags + [flag])[|flags|] == flag;
      assert forall i :: 0 <= i < |flags| ==> (flags + [flag])[i] == flags[i];
    }
  }

  // ----- the pass -----

  /** One workstation's view of its gateway's cron table, and the names its status records. */
  class Workstation {
    const agent: string
    var table: Table
    var recorded: seq<string>

    constructor (agent: string, table: Table)
      ensures this.agent == agent && this.table == table && recorded == []
    {
      this.agent, this.table, recorded := agent, table, [];
    }

    /** One pass; `answers` says how the commands go. A gateway that is not ready or cannot be listed leaves everything
        as it was. */
    method Reconcile(declared: seq<Schedule>, ready: bool, answers: int -> Outcome)
      returns (failures: nat, ghost jobs: seq<Job>, ghost previous: seq<string>, ghost ops: seq<Op>, ghost outcomes: seq<Outcome>)
      requires Keyed(table)
      modifies this
      ensures Keyed(table)
      ensures !ready ==> table == old(table) && recorded == old(recorded)
      ensures ready ==>
                && Listing(jobs, old(table))
                && SortedNames(previous) && multiset(previous) == multiset(old(recorded))
                && ops == Plan(agent, declared, previous, LastByName(agent, jobs)) && |outcomes| == |ops|
                && table == ExecuteAll(agent, old(table), ops, outcomes)
                && (failures == 0 <==> AllTrue(Effective(agent, old(table), ops, outcomes)))
                && multiset(recorded) == multiset(Names(declared)) && (declared != [] ==> SortedNames(recorded))
    {
      hide DeclaredOps, RemovalOps, Execute, Succeeds, Effective;
      failures, jobs, previous, ops, outcomes := 0, [], recorded, [], [];
      if ready {
        if |declared| == 0 && |recorded| == 0 {
          NothingPlanned(agent, table, LastByName(agent, jobs));
          jobs := SomeListing(table);
          NothingPlanned(agent, table, LastByName(agent, jobs));
          return;
        }
        var listed := ListJobs(table);
        var plan, sorted := PlanSchedules(agent, declared, recorded, listed);
        jobs, previous, ops := listed, sorted, plan;
        ghost var before := table;
        failures, outcomes := Apply(plan, answers);
        StaysKeyed(agent, before, plan, outcomes);
        recorded := DeclaredNames(declared);
      }
    }

    /** Runs the commands one after the other, whatever becomes of the earlier ones. */
    method Apply(plan: seq<Op>, answers: int -> Outcome) returns (failures: nat, ghost outcomes: seq<Outcome>)
      modifies this`table
      ensures |outcomes| == |plan|
      ensures table == ExecuteAll(agent, old(table), plan, outcomes)
      ensures failures == 0 <==> AllTrue(Effective(agent, old(table), plan, outcomes))
    {
      hide Execute, Succeeds, Effective, ExecuteAll, AllTrue;
      failures, outcomes := 0, [];
      ghost var ok: seq<bool> := [];
      assert AllTrue(ok) && ok == Effective(agent, table, plan[..0], []) && ExecuteAll(agent, table, plan[..0], []) == table by {
        NothingPlanned(agent, table, map[]);
      }
      for i := 0 to |plan|
        invariant |outcomes| == |ok| == i
        invariant table == ExecuteAll(agent, old(table), plan[..i], outcomes)
        invariant ok == Effective(agent, old(table), plan[..i], outcomes)
        invariant failures == 0 <==> AllTrue(ok)
      {
        var o := answers(i);
        EffectiveStep(agent, old(table), plan[..i], outcomes, plan[i], o);
        assert plan[..i + 1] == plan[..i] + [plan[i]];
        AllTrueStep(ok, Succeeds(table, plan[i], o));
        ok := ok + [Succeeds(table, plan[i], o)];
        if Succeeds(table, plan[i], o) {
          table := Execute(agent, table, plan[i], o);
        } else {
          FailsSame(agent, table, plan[i], o);
          failures := failures + 1;
        }
        outcomes := outcomes + [o];
      }
      assert plan[..|plan|] == plan;
    }
  }

  /** The sorted names recorded in the status. */
  method DeclaredNames(declared: seq<Schedule>) returns (names: seq<string>)
    ensures SortedNames(names) && multiset(names) == multiset(Names(declared))
  {
    names := [];
    for i := 0 to |declared|
      invariant names == Names(declared[..i])
    {
      assert Names(declared[..i + 1]) == Names(declared[..i]) + [declared[i].name];
      names := names + [declared[i].name];
    }
    assert declared[..|declared|] == declared;
    names := SortStrings(names);
  }

  /** The gateway lists its jobs in whatever order it likes. */
  method ListJobs(table: Table) returns (jobs: seq<Job>)
    requires Keyed(table)
    ensures Listing(jobs, table)
  {
    jobs := [];
    var todo := table.Keys;
    while todo != {}
      invariant todo <= table.Keys
      invariant forall i :: 0 <= i < |jobs| ==> jobs[i].id in table && table[jobs[i].id] == jobs[i]
      invariant forall id :: id in table && id !in todo ==> exists i :: 0 <= i < |jobs| && jobs[i] == table[id]
      decreases todo
    {
      var id :| id in todo;
      ghost var was := jobs;
      jobs := jobs + [table[id]];
      todo := todo - {id};
      forall k | k in table && k !in todo ensures exists i :: 0 <= i < |jobs| && jobs[i] == table[k] {
        if k == id {
          assert jobs[|was|] == table[k];
        } else {
          var i :| 0 <= i < |was| && was[i] == table[k];
          assert jobs[i] == table[k];
        }
      }
    }
  }

  lemma NothingPlanned(agent: string, table: Table, index: map<string, Job>)
    ensures Plan(agent, [], [], index) == [] && ExecuteAll(agent, table, [], []) == table
    ensures AllTrue([]) && Effective(agent, table, [], []) == []
  {
  }

  lemma {:induction false} SomeListing(table: Table) returns (jobs: seq<Job>)
    requires Keyed(table)
    ensures Listing(jobs, table)
  {
    if table.Keys == {} {
      jobs := [];
    } else {
      var id :| id in table;
      var front := SomeListing(table - {id});
      jobs := front + [table[id]];
      ListingStep(table, id, front);
    }
  }

  lemma ListingStep(table: Table, id: string, front: seq<Job>)
    requires Keyed(table) && id in table && Listing(front, table - {id})
    ensures Listing(front + [table[id]], table)
  {
    var jobs := front + [table[id]];
    assert jobs[|front|] == table[id];
    forall k | k in table ensures exists i :: 0 <= i < |jobs| && jobs[i] == table[k] {
      if k != id {
        assert k in table - {id};
        var i :| 0 <= i < |front| && front[i] == table[k];
        assert jobs[i] == table[k];
      }
    }
  }

  lemma {:induction false} StaysKeyed(agent: string, table: Table, ops: seq<Op>, outcomes: seq<Outcome>)
    requires |ops| == |outcomes| && Keyed(table)
    ensures Keyed(ExecuteAll(agent, table, ops, outcomes))
  {
    if |ops| > 0 { StaysKeyed(agent, table, ops[..|ops| - 1], outcomes[..|ops| - 1]); }
  }

  lemma EffectiveStep(agent: string, table: Table, ops: seq<Op>, outcomes: seq<Outcome>, op: Op, o: Outcome)
    requires |ops| == |outcomes|
    ensures ExecuteAll(agent, table, ops + [op], outcomes + [o]) == Execute(agent, ExecuteAll(agent, table, ops, outcomes), op, o)
    ensures Effective(agent, table, ops + [op], outcomes + [o])
         == Effective(agent, table, ops, outcomes) + [Succeeds(ExecuteAll(agent, table, ops, outcomes), op, o)]
  {
    hide Execute, Succeeds;
    assert (ops + [op])[..|ops|] == ops && (outcomes + [o])[..|ops|] == outcomes;
    EffectivePrefix(agent, table, ops + [op], outcomes + [o], |ops|);
  }
}
