/** What a pass over the cron table achieves: for every table, every declaration and every listing order. */
module ScheduleConvergence {
  import opened Values
  import opened Text
  import opened Schedules

  /** The agent's jobs of one name. */
  function Named(agent: string, table: Table, n: string): set<string> {
    set id | id in table && Visible(agent, table[id]) && table[id].name == n
  }

  // ----- the listing -----

  ghost predicate OneEach(agent: string, table: Table) { forall n :: |Named(agent, table, n)| <= 1 }

  /** The listing's last job of a name is one of that name, and there is one exactly when the agent has such a job. */
  lemma IndexIs(agent: string, table: Table, jobs: seq<Job>, n: string)
    requires Keyed(table) && Listing(jobs, table)
    ensures n in LastByName(agent, jobs) <==> Named(agent, table, n) != {}
    ensures n in LastByName(agent, jobs) ==>
              var j := LastByName(agent, jobs)[n]; j.id in Named(agent, table, n) && table[j.id] == j && j.name == n
  {
    hide LastByName;
    LastByNameIs(agent, jobs);
    var index := LastByName(agent, jobs);
    if n in index {
      var i :| 0 <= i < |jobs| && jobs[i] == index[n];
      assert index[n].id in Named(agent, table, n);
    }
    forall id | id in Named(agent, table, n) ensures n in index {
      var i :| 0 <= i < |jobs| && jobs[i] == table[id];
      assert Visible(agent, jobs[i]);
    }
  }

  lemma OneOnly(s: set<string>, a: string, b: string)
    requires a in s && b in s && |s| <= 1
    ensures a == b
  {
    assert |s - {a}| == |s| - 1;
    assert s - {a} == {};
  }

  lemma TwoOf(s: set<string>) returns (a: string, b: string)
    requires |s| > 1
    ensures a in s && b in s && a != b
  {
    a :| a in s;
    assert |s - {a}| == |s| - 1;
    b :| b in s - {a};
  }

  ghost predicate SameIndex(agent: string, table: Table) {
    forall a, b :: Listing(a, table) && Listing(b, table) ==> LastByName(agent, a) == LastByName(agent, b)
  }

  /** The order in which the gateway lists its jobs does not matter exactly when no two of the agent's share a name. */
  lemma ListingOrderExactly(agent: string, table: Table)
    requires Keyed(table)
    ensures SameIndex(agent, table) <==> OneEach(agent, table)
  {
    hide LastByName, Named, Listing;
    if OneEach(agent, table) {
      forall a, b | Listing(a, table) && Listing(b, table) ensures LastByName(agent, a) == LastByName(agent, b) {
        OneIndex(agent, table, a, b);
      }
    } else {
      var n :| |Named(agent, table, n)| > 1;
      var i, j := TwoOf(Named(agent, table, n));
      var a := ListedLast(agent, table, i, n);
      var b := ListedLast(agent, table, j, n);
      assert LastByName(agent, a)[n].id != LastByName(agent, b)[n].id;
    }
  }

  lemma OneIndex(agent: string, table: Table, a: seq<Job>, b: seq<Job>)
    requires Keyed(table) && OneEach(agent, table) && Listing(a, table) && Listing(b, table)
    ensures LastByName(agent, a) == LastByName(agent, b)
  {
    hide LastByName, Named, Listing;
    var x, y := LastByName(agent, a), LastByName(agent, b);
    forall n ensures (n in x <==> n in y) && (n in x ==> x[n] == y[n]) {
      IndexIs(agent, table, a, n);
      IndexIs(agent, table, b, n);
      if n in x { OneOnly(Named(agent, table, n), x[n].id, y[n].id); }
    }
  }

  lemma ListedLast(agent: string, table: Table, id: string, n: string) returns (jobs: seq<Job>)
    requires Keyed(table) && id in Named(agent, table, n)
    ensures Listing(jobs, table) && n in LastByName(agent, jobs) && LastByName(agent, jobs)[n].id == id
  {
    var front := SomeListing(table - {id});
    jobs := front + [table[id]];
    ListingStep(table, id, front);
    assert jobs[..|jobs| - 1] == front;
  }

  // ----- what the plan contains -----

  lemma OpForNamed(agent: string, s: Schedule, index: map<string, Job>)
    ensures |OpFor(agent, s, index)| <= 1
    ensures forall op :: op in OpFor(agent, s, index) ==>
              && op.name == s.name && !op.Rm?
              && (op.Add? <==> s.name !in index) && (op.Edit? ==> op.id == index[s.name].id)
              && op.cron == TrimSpace(s.cron) && op.message == TrimSpace(s.message)
  {
    hide Differs, TrimSpace;
  }

  lemma {:induction false} DeclaredOpsAre(agent: string, declared: seq<Schedule>, index: map<string, Job>, op: Op)
    ensures op in DeclaredOps(agent, declared, index)
       <==> exists i :: 0 <= i < |declared| && op in OpFor(agent, declared[i], index)
  {
    hide OpFor;
    if |declared| > 0 {
      var front, s := declared[..|declared| - 1], declared[|declared| - 1];
      DeclaredOpsAre(agent, front, index, op);
      if op in DeclaredOps(agent, front, index) {
        var i :| 0 <= i < |front| && op in OpFor(agent, front[i], index);
        assert op in OpFor(agent, declared[i], index);
      } else if op in OpFor(agent, s, index) {
        assert op in OpFor(agent, declared[|front|], index);
      }
    }
  }

  predicate Removes(declared: seq<Schedule>, names: seq<string>, index: map<string, Job>, op: Op) {
    op.Rm? && op.name in names && op.name !in Names(declared) && op.name in index && op.id == index[op.name].id
  }

  lemma {:induction false} RemovalOpsAre(declared: seq<Schedule>, names: seq<string>, index: map<string, Job>, op: Op)
    ensures op in RemovalOps(declared, names, index) <==> Removes(declared, names, index, op)
  {
    hide Names;
    if |names| > 0 {
      RemovalOpsAre(declared, names[..|names| - 1], index, op);
      assert names == names[..|names| - 1] + [names[|names| - 1]];
    }
  }

  lemma NamedIn(declared: seq<Schedule>, m: nat)
    requires m < |declared|
    ensures declared[m].name in Names(declared)
  {
    assert Names(declared)[m] == declared[m].name;
  }

  /** A declared operation comes from a schedule of its name. */
  lemma DeclaredOpFrom(agent: string, declared: seq<Schedule>, index: map<string, Job>, op: Op) returns (k: nat)
    requires op in DeclaredOps(agent, declared, index)
    ensures k < |declared| && op in OpFor(agent, declared[k], index) && op.name == declared[k].name && op.name in Names(declared)
    ensures !op.Rm? && (op.Add? <==> op.name !in index) && (op.Edit? ==> op.id == index[op.name].id)
    ensures op.cron == TrimSpace(declared[k].cron) && op.message == TrimSpace(declared[k].message)
  {
    hide OpFor, DeclaredOps, Names, TrimSpace;
    DeclaredOpsAre(agent, declared, index, op);
    k :| 0 <= k < |declared| && op in OpFor(agent, declared[k], index);
    OpForNamed(agent, declared[k], index);
    NamedIn(declared, k);
  }

  /** The last job of the listing that the agent may see under a name. */
  ghost predicate LastNamed(agent: string, jobs: seq<Job>, n: string, i: int) {
    && 0 <= i < |jobs| && jobs[i].name == n && jobs[i].agentId in {agent, ""}
    && forall k :: i < k < |jobs| && jobs[k].agentId in {agent, ""} ==> jobs[k].name != n
  }

  lemma {:induction false} LastByNameExactly(agent: string, jobs: seq<Job>, n: string)
    ensures n in LastByName(agent, jobs) <==> exists i :: LastNamed(agent, jobs, n, i)
    ensures forall i :: LastNamed(agent, jobs, n, i) ==> n in LastByName(agent, jobs) && LastByName(agent, jobs)[n] == jobs[i]
  {
    if |jobs| > 0 {
      var front, j := jobs[..|jobs| - 1], jobs[|jobs| - 1];
      LastByNameExactly(agent, front, n);
      if Visible(agent, j) && j.name == n {
        assert LastNamed(agent, jobs, n, |front|);
      } else {
        assert forall i :: LastNamed(agent, jobs, n, i) <==> LastNamed(agent, front, n, i);
      }
    }
  }

  /** The planned commands, from declarations and listing: an addition of every declared name without a job, an edit of
      the last listed job of a declared name that reads otherwise, and the removal of that of a recorded name no longer
      declared; all text trimmed. */
  lemma PlanIs(agent: string, declared: seq<Schedule>, previous: seq<string>, jobs: seq<Job>, op: Op)
    ensures op in Plan(agent, declared, previous, LastByName(agent, jobs))
       <==> match op
            case Add(n, cron, message) =>
              && (forall i :: !LastNamed(agent, jobs, n, i))
              && exists k :: Asks(declared, k, n, cron, message)
            case Edit(n, id, cron, message) =>
              exists i, k :: LastNamed(agent, jobs, n, i) && jobs[i].id == id && Asks(declared, k, n, cron, message)
                && (TrimSpace(jobs[i].expr) != cron || TrimSpace(jobs[i].message) != message)
            case Rm(n, id) =>
              && n in previous && (forall k :: 0 <= k < |declared| ==> declared[k].name != n)
              && exists i :: LastNamed(agent, jobs, n, i) && jobs[i].id == id
  {
    hide LastByName, LastNamed, TrimSpace, OpFor, Names, Asks;
    var index := LastByName(agent, jobs);
    LastByNameExactly(agent, jobs, op.name);
    DeclaredOpsAre(agent, declared, index, op);
    RemovalOpsAre(declared, previous, index, op);
    NamesAre(declared, op.name);
    forall k | 0 <= k < |declared| ensures op in OpFor(agent, declared[k], index) <==> Called(agent, declared, index, op, k) {
      VisibleIndex(agent, jobs, declared[k].name);
      OpForIs(agent, declared, index, op, k);
    }
    hide Called;
    CalledFor(agent, declared, jobs, op);
  }

  /** A declaration of that name with that trimmed text. */
  ghost predicate Asks(declared: seq<Schedule>, k: int, n: string, cron: string, message: string) {
    && 0 <= k < |declared| && declared[k].name == n
    && TrimSpace(declared[k].cron) == cron && TrimSpace(declared[k].message) == message
  }

  /** The declaration calls for the command. */
  ghost predicate Called(agent: string, declared: seq<Schedule>, index: map<string, Job>, op: Op, k: int) {
    match op
    case Add(n, cron, message) => Asks(declared, k, n, cron, message) && n !in index
    case Edit(n, id, cron, message) =>
      && Asks(declared, k, n, cron, message) && n in index && index[n].id == id
      && (TrimSpace(index[n].expr) != cron || TrimSpace(index[n].message) != message)
    case Rm(_, _) => false
  }

  lemma OpForIs(agent: string, declared: seq<Schedule>, index: map<string, Job>, op: Op, k: nat)
    requires k < |declared| && (declared[k].name in index ==> index[declared[k].name].agentId in {agent, ""})
    ensures op in OpFor(agent, declared[k], index) <==> Called(agent, declared, index, op, k)
  {
    hide TrimSpace;
  }

  lemma NamesAre(declared: seq<Schedule>, n: string)
    ensures n in Names(declared) <==> exists k :: 0 <= k < |declared| && declared[k].name == n
  {
    if n in Names(declared) { var k := DeclaredAt(declared, n); }
    forall k | 0 <= k < |declared| && declared[k].name == n ensures n in Names(declared) { NamedIn(declared, k); }
  }

  lemma VisibleIndex(agent: string, jobs: seq<Job>, n: string)
    ensures n in LastByName(agent, jobs) ==> LastByName(agent, jobs)[n].agentId in {agent, ""}
  {
    hide LastByName;
    LastByNameIs(agent, jobs);
  }

  lemma CalledFor(agent: string, declared: seq<Schedule>, jobs: seq<Job>, op: Op)
    ensures var index := LastByName(agent, jobs);
            (exists k :: 0 <= k < |declared| && Called(agent, declared, index, op, k))
            <==> match op
                 case Add(n, cron, message) =>
                   (forall i :: !LastNamed(agent, jobs, n, i)) && exists k :: Asks(declared, k, n, cron, message)
                 case Edit(n, id, cron, message) =>
                   exists i, k :: LastNamed(agent, jobs, n, i) && jobs[i].id == id && Asks(declared, k, n, cron, message)
                     && (TrimSpace(jobs[i].expr) != cron || TrimSpace(jobs[i].message) != message)
                 case Rm(_, _) => false
  {
    hide LastByName, TrimSpace;
    var index := LastByName(agent, jobs);
    LastByNameExactly(agent, jobs, op.name);
    match op
    case Add(n, cron, message) =>
      forall k | Asks(declared, k, n, cron, message) && n !in index ensures Called(agent, declared, index, op, k) {}
    case Edit(n, id, cron, message) =>
      forall i, k | LastNamed(agent, jobs, n, i) && jobs[i].id == id && Asks(declared, k, n, cron, message)
                    && (TrimSpace(jobs[i].expr) != cron || TrimSpace(jobs[i].message) != message)
        ensures 0 <= k < |declared| && Called(agent, declared, index, op, k) {}
      if k :| 0 <= k < |declared| && Called(agent, declared, index, op, k) {
        var i :| LastNamed(agent, jobs, n, i);
        assert jobs[i] == index[n];
      }
    case Rm(_, _) =>
  }

  // ----- additions and edits -----

  /** After additions and edits: every job is still there under its name, other agents' jobs are untouched, and what is
      new is the agent's. */
  ghost predicate Grown(agent: string, before: Table, after: Table) {
    && Keyed(after) && before.Keys <= after.Keys
    && (forall id :: id in before ==>
          && after[id].name == before[id].name && (Visible(agent, after[id]) <==> Visible(agent, before[id]))
          && (!Visible(agent, before[id]) ==> after[id] == before[id]))
    && (forall id :: id in after && id !in before ==> Visible(agent, after[id]))
  }

  predicate Aimed(agent: string, table: Table, op: Op) {
    op.Add? || (op.id in table && Visible(agent, table[op.id]) && table[op.id].name == op.name)
  }

  lemma GrowOne(agent: string, before: Table, now: Table, op: Op, o: Outcome)
    requires Keyed(before) && Grown(agent, before, now) && !op.Rm? && Aimed(agent, before, op)
    ensures Grown(agent, before, Execute(agent, now, op, o))
  {
    match op
    case Add(_, _, _) =>
    case Edit(_, _, _, _) =>
  }

  lemma NamedOne(agent: string, before: Table, now: Table, op: Op, o: Outcome, n: string)
    requires Grown(agent, before, now) && !op.Rm? && Aimed(agent, before, op)
    ensures Named(agent, Execute(agent, now, op, o), n)
         == Named(agent, now, n) + (if op.Add? && op.name == n && Succeeds(now, op, o) then {o.id} else {})
    ensures op.Add? && Succeeds(now, op, o) ==> o.id !in Named(agent, now, n)
  {
    AimedStill(agent, before, now, op);
    hide Grown;
    match op
    case Add(_, _, _) =>
    case Edit(_, _, _, _) =>
  }

  function AddedIn(ops: seq<Op>, ok: seq<bool>, n: string): nat
    requires |ops| == |ok|
  {
    if |ops| == 0 then 0
    else
      AddedIn(ops[..|ops| - 1], ok[..|ok| - 1], n)
      + if ops[|ops| - 1].Add? && ops[|ops| - 1].name == n && ok[|ok| - 1] then 1 else 0
  }

  lemma {:induction false} GrowAll(agent: string, table: Table, ops: seq<Op>, outcomes: seq<Outcome>, n: string)
    requires Keyed(table) && |ops| == |outcomes|
    requires forall i :: 0 <= i < |ops| ==> !ops[i].Rm? && Aimed(agent, table, ops[i])
    ensures var after := ExecuteAll(agent, table, ops, outcomes);
            && Grown(agent, table, after)
            && Named(agent, table, n) <= Named(agent, after, n)
            && |Named(agent, after, n)| == |Named(agent, table, n)| + AddedIn(ops, Effective(agent, table, ops, outcomes), n)
  {
    hide Grown, Named, Succeeds, Execute, Aimed;
    if |ops| == 0 {
      NothingGrown(agent, table);
    } else {
      var k := |ops| - 1;
      EffectivePrefix(agent, table, ops, outcomes, k);
      assert forall i :: 0 <= i < k ==> ops[..k][i] == ops[i];
      GrowAll(agent, table, ops[..k], outcomes[..k], n);
      GrowOne(agent, table, ExecuteAll(agent, table, ops[..k], outcomes[..k]), ops[k], outcomes[k]);
      NamedOne(agent, table, ExecuteAll(agent, table, ops[..k], outcomes[..k]), ops[k], outcomes[k], n);
    }
  }

  lemma NothingGrown(agent: string, table: Table)
    requires Keyed(table)
    ensures Grown(agent, table, table)
  {
  }

  /** The last command that took effect on a job, or -1. */
  function Writer(agent: string, table: Table, ops: seq<Op>, outcomes: seq<Outcome>, id: string): int
    requires |ops| == |outcomes|
  {
    if |ops| == 0 then -1
    else
      var k := |ops| - 1;
      if Succeeds(ExecuteAll(agent, table, ops[..k], outcomes[..k]), ops[k], outcomes[k])
         && (if ops[k].Add? then outcomes[k].id else ops[k].id) == id
      then k else Writer(agent, table, ops[..k], outcomes[..k], id)
  }

  /** The job reads as the command said. */
  predicate Wrote(agent: string, op: Op, j: Job) {
    !op.Rm? && j.name == op.name && j.agentId == agent && j.expr == op.cron && j.message == op.message
  }

  lemma {:induction false} WrittenBy(agent: string, table: Table, ops: seq<Op>, outcomes: seq<Outcome>, id: string)
    requires Keyed(table) && |ops| == |outcomes|
    requires forall i :: 0 <= i < |ops| ==> !ops[i].Rm? && Aimed(agent, table, ops[i])
    requires id in ExecuteAll(agent, table, ops, outcomes)
    ensures var after := ExecuteAll(agent, table, ops, outcomes);
            var k := Writer(agent, table, ops, outcomes, id);
            if 0 <= k < |ops| then Wrote(agent, ops[k], after[id]) && Effective(agent, table, ops, outcomes)[k]
            else id in table && after[id] == table[id]
    ensures -1 <= Writer(agent, table, ops, outcomes, id) < |ops|
  {
    hide Grown, Named, Effective, Aimed;
    if |ops| > 0 {
      var k := |ops| - 1;
      var now := ExecuteAll(agent, table, ops[..k], outcomes[..k]);
      EffectiveLast(agent, table, ops, outcomes);
      EffectivePrefix(agent, table, ops, outcomes, k);
      assert forall i :: 0 <= i < k ==> ops[..k][i] == ops[i];
      GrowAll(agent, table, ops[..k], outcomes[..k], ops[k].name);
      AimedStill(agent, table, now, ops[k]);
      if id in now { WrittenBy(agent, table, ops[..k], outcomes[..k], id); }
    }
  }

  lemma AimedStill(agent: string, table: Table, now: Table, op: Op)
    requires Grown(agent, table, now) && Aimed(agent, table, op)
    ensures Aimed(agent, now, op) && Keyed(now)
    ensures op.Edit? ==> op.id in now && now[op.id].name == op.name
  {
  }

  lemma EffectiveLast(agent: string, table: Table, ops: seq<Op>, outcomes: seq<Outcome>)
    requires |ops| == |outcomes| > 0
    ensures var k := |ops| - 1;
            Effective(agent, table, ops, outcomes)[k] == Succeeds(ExecuteAll(agent, table, ops[..k], outcomes[..k]), ops[k], outcomes[k])
  {
  }

  /** Every command that takes effect is the last one on its job, or another follows. */
  lemma {:induction false} EffectiveWrites(agent: string, table: Table, ops: seq<Op>, outcomes: seq<Outcome>, i: nat)
    requires |ops| == |outcomes| && i < |ops| && Effective(agent, table, ops, outcomes)[i]
    ensures Writer(agent, table, ops, outcomes, if ops[i].Add? then outcomes[i].id else ops[i].id) >= i
  {
    hide Succeeds, ExecuteAll, Effective;
    var k := |ops| - 1;
    EffectiveLast(agent, table, ops, outcomes);
    EffectivePrefix(agent, table, ops, outcomes, k);
    if i < k {
      assert Effective(agent, table, ops, outcomes)[..k][i];
      EffectiveWrites(agent, table, ops[..k], outcomes[..k], i);
    }
  }

  // ----- removals -----

  lemma {:induction false} ShrinkAll(agent: string, table: Table, ops: seq<Op>, outcomes: seq<Outcome>)
    requires |ops| == |outcomes| && forall i :: 0 <= i < |ops| ==> ops[i].Rm?
    ensures var after := ExecuteAll(agent, table, ops, outcomes);
            && (forall id :: id in after ==> id in table && after[id] == table[id])
            && (forall id :: id in table ==>
                  (id !in after <==> exists i :: 0 <= i < |ops| && ops[i].id == id && Effective(agent, table, ops, outcomes)[i]))
  {
    hide Effective;
    if |ops| > 0 {
      var k := |ops| - 1;
      EffectiveLast(agent, table, ops, outcomes);
      EffectivePrefix(agent, table, ops, outcomes, k);
      assert forall i :: 0 <= i < k ==> ops[..k][i] == ops[i];
      var ok := Effective(agent, table, ops, outcomes);
      assert forall i :: 0 <= i < k ==> ok[..k][i] == ok[i];
      ShrinkAll(agent, table, ops[..k], outcomes[..k]);
    }
  }

  lemma {:induction false} ExecuteSplit(agent: string, table: Table, a: seq<Op>, b: seq<Op>, oa: seq<Outcome>, ob: seq<Outcome>)
    requires |a| == |oa| && |b| == |ob|
    ensures ExecuteAll(agent, table, a + b, oa + ob) == ExecuteAll(agent, ExecuteAll(agent, table, a, oa), b, ob)
    ensures Effective(agent, table, a + b, oa + ob)
         == Effective(agent, table, a, oa) + Effective(agent, ExecuteAll(agent, table, a, oa), b, ob)
  {
    hide Execute, Succeeds, Effective;
    if |b| == 0 {
      assert a + b == a && oa + ob == oa;
      assert Effective(agent, ExecuteAll(agent, table, a, oa), b, ob) == [];
    } else {
      var k := |b| - 1;
      var mid := ExecuteAll(agent, table, a, oa);
      ExecuteSplit(agent, table, a, b[..k], oa, ob[..k]);
      EffectiveStep(agent, table, a + b[..k], oa + ob[..k], b[k], ob[k]);
      EffectiveStep(agent, mid, b[..k], ob[..k], b[k], ob[k]);
      Regroup(a, b);
      Regroup(oa, ob);
      hide ExecuteAll;
    }
  }

  lemma Regroup<T>(a: seq<T>, b: seq<T>)
    requires |b| > 0
    ensures a + b[..|b| - 1] + [b[|b| - 1]] == a + b && b[..|b| - 1] + [b[|b| - 1]] == b
  {
  }

  // ----- a pass -----

  /** One pass in which the listing was `jobs` and the commands went as `outcomes` says. */
  datatype Pass = Pass(
    agent: string, declared: seq<Schedule>, previous: seq<string>, jobs: seq<Job>, table: Table, outcomes: seq<Outcome>)
  {
    function Index(): map<string, Job> { LastByName(agent, jobs) }

    function First(): seq<Op> { DeclaredOps(agent, declared, Index()) }

    function Last(): seq<Op> { RemovalOps(declared, previous, Index()) }

    function Ops(): seq<Op> { Plan(agent, declared, previous, Index()) }

    ghost predicate Valid() { Keyed(table) && Listing(jobs, table) && |outcomes| == |Ops()| }

    function Mid(): Table
      requires |outcomes| == |Ops()|
    {
      ExecuteAll(agent, table, First(), outcomes[..|First()|])
    }

    function After(): Table
      requires |outcomes| == |Ops()|
    {
      ExecuteAll(agent, table, Ops(), outcomes)
    }

    /** Which commands took effect. */
    function Ok(): (ok: seq<bool>)
      requires |outcomes| == |Ops()|
      ensures |ok| == |Ops()|
    {
      Effective(agent, table, Ops(), outcomes)
    }
  }

  lemma TwoPhases(x: Pass)
    requires x.Valid()
    ensures x.After() == ExecuteAll(x.agent, x.Mid(), x.Last(), x.outcomes[|x.First()|..])
    ensures x.Ok() == Effective(x.agent, x.table, x.First(), x.outcomes[..|x.First()|])
                      + Effective(x.agent, x.Mid(), x.Last(), x.outcomes[|x.First()|..])
  {
    hide ExecuteAll, Effective, DeclaredOps, RemovalOps;
    var k := |x.First()|;
    assert x.outcomes == x.outcomes[..k] + x.outcomes[k..];
    ExecuteSplit(x.agent, x.table, x.First(), x.Last(), x.outcomes[..k], x.outcomes[k..]);
  }

  lemma FirstAimed(x: Pass, i: nat)
    requires x.Valid() && i < |x.First()|
    ensures !x.First()[i].Rm? && Aimed(x.agent, x.table, x.First()[i]) && x.First()[i].name in Names(x.declared)
    ensures x.First()[i].Add? <==> x.First()[i].name !in x.Index()
  {
    hide LastByName, Listing, DeclaredOps, Names;
    var op := x.First()[i];
    assert op in x.First();
    var k := DeclaredOpFrom(x.agent, x.declared, x.Index(), op);
    IndexIs(x.agent, x.table, x.jobs, op.name);
  }

  lemma LastRemoves(x: Pass, i: nat)
    requires x.Valid() && i < |x.Last()|
    ensures Removes(x.declared, x.previous, x.Index(), x.Last()[i])
    ensures x.Last()[i].id in Named(x.agent, x.table, x.Last()[i].name)
  {
    hide LastByName, Listing, RemovalOps, Named, Removes;
    var op := x.Last()[i];
    assert op in x.Last();
    RemovalOpsAre(x.declared, x.previous, x.Index(), op);
    RemovedName(x.declared, x.previous, x.Index(), op);
    IndexIs(x.agent, x.table, x.jobs, op.name);
  }

  lemma RemovedName(declared: seq<Schedule>, names: seq<string>, index: map<string, Job>, op: Op)
    requires Removes(declared, names, index, op)
    ensures op.name in index && op.id == index[op.name].id && op.Rm? && op.name !in Names(declared) && op.name in names
  {
  }

  lemma PassGrows(x: Pass, n: string)
    requires x.Valid()
    ensures Grown(x.agent, x.table, x.Mid())
    ensures Named(x.agent, x.table, n) <= Named(x.agent, x.Mid(), n)
    ensures |Named(x.agent, x.Mid(), n)| == |Named(x.agent, x.table, n)|
              + AddedIn(x.First(), Effective(x.agent, x.table, x.First(), x.outcomes[..|x.First()|]), n)
  {
    hide Grown, Named, Aimed, ExecuteAll, DeclaredOps, RemovalOps, LastByName, Listing;
    forall i | 0 <= i < |x.First()| ensures !x.First()[i].Rm? && Aimed(x.agent, x.table, x.First()[i]) { FirstAimed(x, i); }
    GrowAll(x.agent, x.table, x.First(), x.outcomes[..|x.First()|], n);
  }

  lemma {:induction false} NoneAdded(ops: seq<Op>, ok: seq<bool>, n: string)
    requires |ops| == |ok| && forall i :: 0 <= i < |ops| ==> !(ops[i].Add? && ops[i].name == n)
    ensures AddedIn(ops, ok, n) == 0
  {
    if |ops| > 0 { NoneAdded(ops[..|ops| - 1], ok[..|ok| - 1], n); }
  }

  lemma SubsetSame(a: set<string>, b: set<string>)
    requires a <= b && |a| == |b|
    ensures a == b
  {
    assert b == a + (b - a);
    assert |b| == |a| + |b - a|;
  }

  /** Nothing is added under a name that is not declared, or that the agent has a job of. */
  lemma NamedMid(x: Pass, n: string)
    requires x.Valid() && (n !in Names(x.declared) || n in x.Index())
    ensures Named(x.agent, x.Mid(), n) == Named(x.agent, x.table, n)
  {
    hide Grown, Named, Aimed, ExecuteAll, DeclaredOps, RemovalOps, LastByName, Listing, Names, AddedIn;
    PassGrows(x, n);
    forall i | 0 <= i < |x.First()| ensures !(x.First()[i].Add? && x.First()[i].name == n) { FirstAimed(x, i); }
    NoneAdded(x.First(), Effective(x.agent, x.table, x.First(), x.outcomes[..|x.First()|]), n);
    SubsetSame(Named(x.agent, x.table, n), Named(x.agent, x.Mid(), n));
  }

  /** The removal of a name took effect. */
  ghost predicate Gone(x: Pass, n: string)
    requires |x.outcomes| == |x.Ops()|
  {
    exists i :: 0 <= i < |x.Ops()| && x.Ops()[i].Rm? && x.Ops()[i].name == n && x.Ok()[i]
  }

  /** The removals are the last commands of the plan. */
  lemma RemovalsLast(x: Pass, i: nat)
    requires x.Valid() && i < |x.Ops()|
    ensures i < |x.First()| ==> !x.Ops()[i].Rm?
    ensures i >= |x.First()| ==>
              && x.Ops()[i] == x.Last()[i - |x.First()|] && x.Ops()[i].Rm?
              && x.Ok()[i] == Effective(x.agent, x.Mid(), x.Last(), x.outcomes[|x.First()|..])[i - |x.First()|]
  {
    hide ExecuteAll, DeclaredOps, RemovalOps, LastByName, Listing, Effective, Removes;
    TwoPhases(x);
    if i < |x.First()| {
      FirstAimed(x, i);
    } else {
      LastRemoves(x, i - |x.First()|);
      RemovedName(x.declared, x.previous, x.Index(), x.Last()[i - |x.First()|]);
    }
  }

  lemma PassShrinks(x: Pass, id: string)
    requires x.Valid()
    ensures id in x.After() ==> id in x.Mid() && x.After()[id] == x.Mid()[id]
    ensures id in x.Mid() && id !in x.After() ==>
              exists i :: 0 <= i < |x.Ops()| && x.Ops()[i].Rm? && x.Ops()[i].id == id && x.Ok()[i]
  {
    hide ExecuteAll, DeclaredOps, RemovalOps, LastByName, Listing, Effective, Plan;
    TwoPhases(x);
    var k := |x.First()|;
    forall i | 0 <= i < |x.Last()| ensures x.Last()[i].Rm? { LastIsRemoval(x, i); }
    ShrinkAll(x.agent, x.Mid(), x.Last(), x.outcomes[k..]);
    if id in x.Mid() && id !in x.After() {
      var i :| 0 <= i < |x.Last()| && x.Last()[i].id == id && Effective(x.agent, x.Mid(), x.Last(), x.outcomes[k..])[i];
      LastIsRemoval(x, i);
      RemovalsLast(x, k + i);
    }
  }

  lemma LastIsRemoval(x: Pass, i: nat)
    requires x.Valid() && i < |x.Last()|
    ensures x.Last()[i].Rm? && |x.Ops()| == |x.First()| + |x.Last()| && x.Ops()[|x.First()| + i] == x.Last()[i]
  {
    hide DeclaredOps, RemovalOps, LastByName, Listing, Removes;
    LastRemoves(x, i);
    RemovedName(x.declared, x.previous, x.Index(), x.Last()[i]);
  }

  /** A removal that took effect took effect on the job it names, and left no such job. */
  lemma RemovalWorks(x: Pass, i: nat)
    requires x.Valid() && i < |x.Ops()| && x.Ops()[i].Rm?
    ensures var op := x.Ops()[i];
            && op.name in x.Index() && op.id == x.Index()[op.name].id && op.name !in Names(x.declared) && op.name in x.previous
            && op.id in Named(x.agent, x.table, op.name)
            && (x.Ok()[i] ==> op.id !in x.After())
  {
    hide ExecuteAll, DeclaredOps, RemovalOps, LastByName, Listing, Effective, Removes, Named;
    var k := |x.First()|;
    RemovalsLast(x, i);
    assert i >= k;
    LastRemoves(x, i - k);
    RemovedName(x.declared, x.previous, x.Index(), x.Last()[i - k]);
    if x.Ok()[i] { RemovedGone(x, i - k); }
  }

  lemma RemovedGone(x: Pass, j: nat)
    requires x.Valid() && j < |x.Last()| && x.Last()[j].Rm?
    requires Effective(x.agent, x.Mid(), x.Last(), x.outcomes[|x.First()|..])[j]
    ensures x.Last()[j].id !in x.After()
  {
    hide ExecuteAll, DeclaredOps, RemovalOps, LastByName, Listing, Effective, Plan;
    TwoPhases(x);
    forall i | 0 <= i < |x.Last()| ensures x.Last()[i].Rm? { LastIsRemoval(x, i); }
    ShrinkAll(x.agent, x.Mid(), x.Last(), x.outcomes[|x.First()|..]);
  }

  // ----- what a pass leaves of each name -----

  /** The agent's jobs of a name afterwards: additions count under declared names, and an undeclared name loses the one
      job its removal is about, if that took effect. */
  lemma NamedAfter(x: Pass, n: string)
    requires x.Valid()
    ensures n in Names(x.declared) ==> Named(x.agent, x.After(), n) == Named(x.agent, x.Mid(), n) && !Gone(x, n)
    ensures n !in Names(x.declared) && !Gone(x, n) ==> Named(x.agent, x.After(), n) == Named(x.agent, x.table, n)
    ensures Gone(x, n) ==>
              && n in x.previous && n in x.Index() && x.Index()[n].id in Named(x.agent, x.table, n)
              && Named(x.agent, x.After(), n) == Named(x.agent, x.table, n) - {x.Index()[n].id}
  {
    hide ExecuteAll, DeclaredOps, RemovalOps, LastByName, Listing, Effective, Plan, Names, Grown;
    if n !in Names(x.declared) { NamedMid(x, n); }
    if Gone(x, n) {
      var i :| 0 <= i < |x.Ops()| && x.Ops()[i].Rm? && x.Ops()[i].name == n && x.Ok()[i];
      RemovalWorks(x, i);
    }
    forall id | id in Named(x.agent, x.Mid(), n) && id !in x.After()
      ensures Gone(x, n) && id == x.Index()[n].id
    {
      LostIsGone(x, n, id);
    }
    forall id ensures id in x.After() ==> id in x.Mid() && x.After()[id] == x.Mid()[id] { PassShrinks(x, id); }
  }

  lemma LostIsGone(x: Pass, n: string, id: string)
    requires x.Valid() && id in Named(x.agent, x.Mid(), n) && id !in x.After()
    ensures Gone(x, n) && n in x.Index() && id == x.Index()[n].id
  {
    hide ExecuteAll, DeclaredOps, RemovalOps, LastByName, Listing, Effective, Plan, Names;
    PassShrinks(x, id);
    var i :| 0 <= i < |x.Ops()| && x.Ops()[i].Rm? && x.Ops()[i].id == id && x.Ok()[i];
    RemovalWorks(x, i);
    PassGrows(x, n);
  }

  // ----- the exact conditions -----

  predicate SameText(s: Schedule, t: Schedule) {
    TrimSpace(s.cron) == TrimSpace(t.cron) && TrimSpace(s.message) == TrimSpace(t.message)
  }

  /** Declarations of one name agree, up to surrounding white space. */
  ghost predicate Agree(declared: seq<Schedule>) {
    forall i, j :: 0 <= i < |declared| && 0 <= j < |declared| && declared[i].name == declared[j].name
      ==> SameText(declared[i], declared[j])
  }

  /** The job is the declared one, up to surrounding white space; an adopted job may belong to no agent in particular. */
  predicate Matches(agent: string, s: Schedule, j: Job) {
    && j.name == s.name && Visible(agent, j)
    && TrimSpace(j.expr) == TrimSpace(s.cron) && TrimSpace(j.message) == TrimSpace(s.message)
  }

  lemma NothingToDo(agent: string, s: Schedule, index: map<string, Job>)
    requires s.name in index ==> index[s.name].name == s.name
    ensures OpFor(agent, s, index) == [] <==> s.name in index && Matches(agent, s, index[s.name])
  {
    hide TrimSpace;
  }

  /** A table the plan has nothing to say about exists exactly when same-named declarations agree; otherwise every pass,
      over every table and listing, edits again. */
  lemma CanSettleExactly(agent: string, declared: seq<Schedule>)
    ensures Agree(declared) <==> exists table, jobs ::
              Keyed(table) && Listing(jobs, table) && DeclaredOps(agent, declared, LastByName(agent, jobs)) == []
  {
    if Agree(declared) {
      var table, jobs := SettledTable(agent, declared);
    } else {
      forall table, jobs | Keyed(table) && Listing(jobs, table)
        ensures DeclaredOps(agent, declared, LastByName(agent, jobs)) != []
      {
        Disagreement(agent, declared, table, jobs);
      }
    }
  }

  lemma Disagreement(agent: string, declared: seq<Schedule>, table: Table, jobs: seq<Job>)
    requires Keyed(table) && Listing(jobs, table) && !Agree(declared)
    ensures DeclaredOps(agent, declared, LastByName(agent, jobs)) != []
  {
    hide TrimSpace, DeclaredOps, LastByName, Listing, OpFor;
    var i, j :| 0 <= i < |declared| && 0 <= j < |declared| && declared[i].name == declared[j].name && !SameText(declared[i], declared[j]);
    var index := LastByName(agent, jobs);
    IndexIs(agent, table, jobs, declared[i].name);
    NothingToDo(agent, declared[i], index);
    NothingToDo(agent, declared[j], index);
    var k := if OpFor(agent, declared[i], index) != [] then i else j;
    var op := OpFor(agent, declared[k], index)[0];
    assert op in OpFor(agent, declared[k], index);
    DeclaredOpsAre(agent, declared, index, op);
  }

  /** A table of the declared jobs themselves, each under its name as its id. */
  function DeclaredJob(agent: string, s: Schedule): Job { Job(s.name, s.name, agent, s.cron, s.message) }

  lemma {:induction false} SettledTable(agent: string, declared: seq<Schedule>) returns (table: Table, jobs: seq<Job>)
    requires Agree(declared)
    ensures Keyed(table) && Listing(jobs, table) && DeclaredOps(agent, declared, LastByName(agent, jobs)) == []
  {
    hide TrimSpace, OpFor, LastByName;
    table := TableOf(agent, declared, declared);
    jobs := SomeListing(table);
    var index := LastByName(agent, jobs);
    forall k | 0 <= k < |declared| ensures OpFor(agent, declared[k], index) == [] {
      IndexIs(agent, table, jobs, declared[k].name);
      NothingToDo(agent, declared[k], index);
      assert declared[k].name in Named(agent, table, declared[k].name);
      var j := index[declared[k].name];
      assert table[j.id] == j && j.id == j.name;
      var m :| 0 <= m < |declared| && declared[m].name == j.id && table[j.id] == DeclaredJob(agent, declared[m]);
      assert SameText(declared[m], declared[k]);
    }
    NoOps(agent, declared, index);
  }

  lemma {:induction false} NoOps(agent: string, declared: seq<Schedule>, index: map<string, Job>)
    requires forall k :: 0 <= k < |declared| ==> OpFor(agent, declared[k], index) == []
    ensures DeclaredOps(agent, declared, index) == []
  {
    hide OpFor;
    if |declared| > 0 {
      assert forall k :: 0 <= k < |declared| - 1 ==> declared[..|declared| - 1][k] == declared[k];
      NoOps(agent, declared[..|declared| - 1], index);
    }
  }

  lemma {:induction false} TableOf(agent: string, declared: seq<Schedule>, all: seq<Schedule>) returns (table: Table)
    requires declared <= all
    ensures Keyed(table)
    ensures forall id :: id in table ==>
              exists m :: 0 <= m < |all| && all[m].name == id && table[id] == DeclaredJob(agent, all[m])
    ensures forall k :: 0 <= k < |declared| ==> declared[k].name in table
  {
    table := map[];
    if |declared| > 0 {
      var k := |declared| - 1;
      var front := TableOf(agent, declared[..k], all);
      assert forall i :: 0 <= i < k ==> declared[..k][i] == declared[i];
      table := front[declared[k].name := DeclaredJob(agent, declared[k])];
      assert all[k] == declared[k];
    }
  }

  function Times(declared: seq<Schedule>, n: string): nat { multiset(Names(declared))[n] }

  lemma TimesStep(declared: seq<Schedule>, s: Schedule, n: string)
    ensures Times(declared + [s], n) == Times(declared, n) + (if s.name == n then 1 else 0)
    ensures n in Names(declared) <==> Times(declared, n) > 0
  {
    assert Names(declared + [s]) == Names(declared) + [s.name];
    assert n in Names(declared) <==> n in multiset(Names(declared));
  }

  /** Of a name the agent has no job of, every declaration adds one. */
  lemma {:induction false} AddedAll(agent: string, declared: seq<Schedule>, index: map<string, Job>, ok: seq<bool>, n: string)
    requires |ok| == |DeclaredOps(agent, declared, index)| && AllTrue(ok) && n !in index
    ensures AddedIn(DeclaredOps(agent, declared, index), ok, n) == Times(declared, n)
  {
    hide OpFor, Names, Times;
    if |declared| == 0 {
      NoneDeclared(n);
    } else {
      var front, s := declared[..|declared| - 1], declared[|declared| - 1];
      var ops := DeclaredOps(agent, front, index);
      AddedAll(agent, front, index, ok[..|ops|], n);
      OpForNamed(agent, s, index);
      assert declared == front + [s];
      TimesStep(front, s, n);
      if OpFor(agent, s, index) == [] {
        assert ops + [] == ops && ok[..|ops|] == ok;
        OpForAbsent(agent, s, index);
      } else {
        var op := OpFor(agent, s, index)[0];
        assert op in OpFor(agent, s, index);
        assert OpFor(agent, s, index) == [op] && (ops + [op])[..|ops|] == ops;
      }
    }
  }

  lemma NoneDeclared(n: string)
    ensures Times([], n) == 0
  {
    assert Names([]) == [];
  }

  lemma OpForAbsent(agent: string, s: Schedule, index: map<string, Job>)
    ensures OpFor(agent, s, index) == [] ==> s.name in index
  {
  }

  /** The number of the agent's jobs of a declared name, when every command takes effect. */
  lemma CountDeclared(x: Pass, n: string)
    requires x.Valid() && AllTrue(x.Ok()) && n in Names(x.declared)
    ensures |Named(x.agent, x.After(), n)|
         == if Named(x.agent, x.table, n) != {} then |Named(x.agent, x.table, n)| else Times(x.declared, n)
  {
    hide ExecuteAll, DeclaredOps, RemovalOps, LastByName, Listing, Effective, Plan, Names, Named, Grown, Times, AddedIn, Gone;
    NamedAfter(x, n);
    IndexIs(x.agent, x.table, x.jobs, n);
    if n in x.Index() {
      NamedMid(x, n);
    } else {
      PassGrows(x, n);
      TwoPhases(x);
      var ok := Effective(x.agent, x.table, x.First(), x.outcomes[..|x.First()|]);
      assert forall i :: 0 <= i < |ok| ==> x.Ok()[i] == ok[i];
      AddedAll(x.agent, x.declared, x.Index(), ok, n);
    }
  }

  /** What there is to read in a job of the agent after the first phase: the text of a declaration of its name, or what
      there was before if no edit took effect on it. */
  lemma ContentFrom(x: Pass, n: string, id: string) returns (k: int)
    requires x.Valid() && id in Named(x.agent, x.Mid(), n)
    ensures -1 <= k < |x.declared|
    ensures k >= 0 ==>
              && x.declared[k].name == n && Matches(x.agent, x.declared[k], x.Mid()[id])
              && exists i :: 0 <= i < |x.First()| && x.First()[i].name == n && x.Ok()[i]
    ensures k < 0 ==>
              && id in x.table && x.Mid()[id] == x.table[id]
              && forall i :: 0 <= i < |x.First()| && x.First()[i].Edit? && x.First()[i].id == id ==> !x.Ok()[i]
  {
    hide ExecuteAll, DeclaredOps, RemovalOps, LastByName, Listing, Effective, Names, Grown, TrimSpace, Aimed;
    var ops, outcomes := x.First(), x.outcomes[..|x.First()|];
    forall i | 0 <= i < |ops| ensures !ops[i].Rm? && Aimed(x.agent, x.table, ops[i]) { FirstAimed(x, i); }
    WrittenBy(x.agent, x.table, ops, outcomes, id);
    var w := Writer(x.agent, x.table, ops, outcomes, id);
    k := -1;
    if w >= 0 {
      assert ops[w] in ops;
      TwoPhases(x);
      assert x.Ok()[w];
      k := DeclaredOpFrom(x.agent, x.declared, x.Index(), ops[w]);
      TrimTwice(x.declared[k].cron);
      TrimTwice(x.declared[k].message);
    } else {
      TwoPhases(x);
      forall i | 0 <= i < |ops| && ops[i].Edit? && ops[i].id == id ensures !x.Ok()[i] {
        if Effective(x.agent, x.table, ops, outcomes)[i] { EffectiveWrites(x.agent, x.table, ops, outcomes, i); }
      }
    }
  }

  /** Of one declaration: the only job of its name matches it, once all commands took effect and its namesakes agree. */
  lemma MatchedAfter(x: Pass, k: nat, id: string)
    requires x.Valid() && AllTrue(x.Ok()) && Agree(x.declared) && k < |x.declared|
    requires Named(x.agent, x.After(), x.declared[k].name) == {id}
    ensures Matches(x.agent, x.declared[k], x.After()[id])
  {
    hide ExecuteAll, DeclaredOps, RemovalOps, LastByName, Listing, Effective, Plan, Names, Grown, TrimSpace, Gone;
    var n := x.declared[k].name;
    NamedIn(x.declared, k);
    NamedAfter(x, n);
    assert id in Named(x.agent, x.After(), n);
    PassShrinks(x, id);
    var m := ContentFrom(x, n, id);
    if m >= 0 {
      assert SameText(x.declared[m], x.declared[k]);
    } else {
      MatchedBefore(x, k, id);
    }
  }

  /** An edit called for is among the commands. */
  lemma EditMade(x: Pass, k: nat)
    requires x.Valid() && AllTrue(x.Ok()) && k < |x.declared| && x.declared[k].name in x.Index()
    requires OpFor(x.agent, x.declared[k], x.Index()) != []
    ensures exists i :: 0 <= i < |x.First()| && x.First()[i].Edit? && x.First()[i].id == x.Index()[x.declared[k].name].id && x.Ok()[i]
  {
    hide ExecuteAll, DeclaredOps, RemovalOps, LastByName, Listing, Effective, Names, OpFor;
    var op := OpFor(x.agent, x.declared[k], x.Index())[0];
    assert op in OpFor(x.agent, x.declared[k], x.Index());
    OpForNamed(x.agent, x.declared[k], x.Index());
    DeclaredOpsAre(x.agent, x.declared, x.Index(), op);
    var i :| 0 <= i < |x.First()| && x.First()[i] == op;
    FirstIsFirst(x);
  }

  lemma FirstIsFirst(x: Pass)
    ensures |x.First()| <= |x.Ops()| && forall i :: 0 <= i < |x.First()| ==> x.Ops()[i] == x.First()[i]
  {
    hide DeclaredOps, RemovalOps, LastByName;
  }

  lemma NamedMembers(agent: string, table: Table, n: string)
    ensures forall id :: id in Named(agent, table, n) ==> id in table
  {
  }

  lemma MatchedBefore(x: Pass, k: nat, id: string)
    requires x.Valid() && AllTrue(x.Ok()) && k < |x.declared|
    requires Named(x.agent, x.Mid(), x.declared[k].name) == {id}
    requires id in x.table && x.Mid()[id] == x.table[id]
    requires forall i :: 0 <= i < |x.First()| && x.First()[i].Edit? && x.First()[i].id == id ==> !x.Ok()[i]
    ensures Matches(x.agent, x.declared[k], x.Mid()[id])
  {
    hide ExecuteAll, DeclaredOps, RemovalOps, LastByName, Listing, Effective, Names, Grown, TrimSpace, Matches;
    var s := x.declared[k];
    var n := s.name;
    PassGrows(x, n);
    assert id in Named(x.agent, x.Mid(), n);
    assert id in Named(x.agent, x.table, n);
    IndexIs(x.agent, x.table, x.jobs, n);
    assert x.Index()[n].id == id;
    if OpFor(x.agent, s, x.Index()) != [] { EditMade(x, k); }
    NothingToDo(x.agent, s, x.Index());
  }

  // ----- convergence, for every input -----

  /** Each declared name has exactly one job of the agent's, and it matches; formerly declared names have none. */
  ghost predicate Converged(agent: string, declared: seq<Schedule>, previous: seq<string>, table: Table) {
    && (forall k :: 0 <= k < |declared| ==>
          && |Named(agent, table, declared[k].name)| == 1
          && forall id :: id in Named(agent, table, declared[k].name) ==> Matches(agent, declared[k], table[id]))
    && (forall n :: n in previous && n !in Names(declared) ==> Named(agent, table, n) == {})
  }

  /** No two of the agent's jobs share a declared or formerly declared name, no name without a job is declared twice, and
      declarations of one name agree. */
  ghost predicate Orderly(agent: string, declared: seq<Schedule>, previous: seq<string>, table: Table) {
    && (forall n :: n in Names(declared) || n in previous ==> |Named(agent, table, n)| <= 1)
    && (forall n :: n in Names(declared) && Named(agent, table, n) == {} ==> Times(declared, n) == 1)
    && Agree(declared)
  }

  lemma ConvergedIsOrderly(x: Pass)
    requires x.Valid() && AllTrue(x.Ok()) && Converged(x.agent, x.declared, x.previous, x.After())
    ensures Orderly(x.agent, x.declared, x.previous, x.table)
  {
    hide ExecuteAll, DeclaredOps, RemovalOps, LastByName, Listing, Effective, Plan, Names, Named, Times, TrimSpace, Gone;
    forall n | n in Names(x.declared)
      ensures |Named(x.agent, x.table, n)| <= 1 && (Named(x.agent, x.table, n) == {} ==> Times(x.declared, n) == 1)
    {
      var k := DeclaredAt(x.declared, n);
      CountDeclared(x, n);
    }
    forall n | n in x.previous && n !in Names(x.declared) ensures |Named(x.agent, x.table, n)| <= 1 {
      NamedAfter(x, n);
      if Gone(x, n) { AtMostOne(Named(x.agent, x.table, n), x.Index()[n].id); }
    }
    forall i, j | 0 <= i < |x.declared| && 0 <= j < |x.declared| && x.declared[i].name == x.declared[j].name
      ensures SameText(x.declared[i], x.declared[j])
    {
      var named := Named(x.agent, x.After(), x.declared[i].name);
      assert named != {};
      var id :| id in named;
    }
  }

  lemma AtMostOne(s: set<string>, x: string)
    requires s - {x} == {}
    ensures |s| <= 1
  {
    assert s <= {x};
    if s != {} { assert s == {x}; }
  }

  lemma DeclaredAt(declared: seq<Schedule>, n: string) returns (k: nat)
    requires n in Names(declared)
    ensures k < |declared| && declared[k].name == n
  {
    k :| 0 <= k < |Names(declared)| && Names(declared)[k] == n;
  }

  lemma OrderlyConverges(x: Pass)
    requires x.Valid() && AllTrue(x.Ok()) && Orderly(x.agent, x.declared, x.previous, x.table)
    ensures Converged(x.agent, x.declared, x.previous, x.After())
  {
    hide ExecuteAll, DeclaredOps, RemovalOps, LastByName, Listing, Effective, Plan, Names, Named, Times, TrimSpace, Gone, Agree, Matches;
    forall n ensures forall id :: id in Named(x.agent, x.After(), n) ==> id in x.After() { NamedMembers(x.agent, x.After(), n); }
    forall k | 0 <= k < |x.declared|
      ensures |Named(x.agent, x.After(), x.declared[k].name)| == 1
      ensures forall id :: id in Named(x.agent, x.After(), x.declared[k].name) ==> Matches(x.agent, x.declared[k], x.After()[id])
    {
      var n := x.declared[k].name;
      NamedIn(x.declared, k);
      CountDeclared(x, n);
      forall id | id in Named(x.agent, x.After(), n) ensures Matches(x.agent, x.declared[k], x.After()[id]) {
        OnlyMember(Named(x.agent, x.After(), n), id);
        MatchedAfter(x, k, id);
      }
    }
    forall n | n in x.previous && n !in Names(x.declared) ensures Named(x.agent, x.After(), n) == {} {
      NamedAfter(x, n);
      if Named(x.agent, x.table, n) != {} {
        IndexIs(x.agent, x.table, x.jobs, n);
        RemovalPlanned(x, n);
        OnlyMember(Named(x.agent, x.table, n), x.Index()[n].id);
      }
    }
  }

  lemma OnlyMember(s: set<string>, x: string)
    requires x in s && |s| <= 1
    ensures s == {x}
  {
    assert |s - {x}| == |s| - 1;
    assert s - {x} == {};
  }

  lemma RemovalPlanned(x: Pass, n: string)
    requires x.Valid() && AllTrue(x.Ok()) && n in x.previous && n !in Names(x.declared) && n in x.Index()
    ensures Gone(x, n)
  {
    hide DeclaredOps, RemovalOps, LastByName, Listing, Effective, Names;
    var op := Rm(n, x.Index()[n].id);
    RemovalOpsAre(x.declared, x.previous, x.Index(), op);
    assert op in x.Last();
    assert op in x.Ops();
  }

  /** A pass all of whose commands take effect converges if and only if the table and the declarations were orderly. */
  lemma ConvergesExactly(x: Pass)
    requires x.Valid() && AllTrue(x.Ok())
    ensures Converged(x.agent, x.declared, x.previous, x.After()) <==> Orderly(x.agent, x.declared, x.previous, x.table)
  {
    hide Converged, Orderly, Plan, ExecuteAll, Effective;
    if Converged(x.agent, x.declared, x.previous, x.After()) { ConvergedIsOrderly(x); }
    if Orderly(x.agent, x.declared, x.previous, x.table) { OrderlyConverges(x); }
  }

  /** What a pass never touches, however its commands go: other agents' jobs, and the agent's own jobs whose names are
      neither declared nor recorded. What it adds is of a declared name. */
  lemma Untouched(x: Pass, id: string)
    requires x.Valid()
    ensures id in x.table && (!Visible(x.agent, x.table[id])
                              || (x.table[id].name !in Names(x.declared) && x.table[id].name !in x.previous))
        ==> id in x.After() && x.After()[id] == x.table[id]
    ensures id in x.After() && id !in x.table ==> Visible(x.agent, x.After()[id]) && x.After()[id].name in Names(x.declared)
  {
    hide ExecuteAll, DeclaredOps, RemovalOps, LastByName, Listing, Effective, Names, TrimSpace;
    PassShrinks(x, id);
    if id in x.table {
      var n := x.table[id].name;
      PassGrows(x, n);
      if Visible(x.agent, x.table[id]) {
        if n !in Names(x.declared) && n !in x.previous {
          NamedAfter(x, n);
          assert id in Named(x.agent, x.table, n);
          assert id in Named(x.agent, x.After(), n);
          var k := ContentFrom(x, n, id);
          if k >= 0 { NamedIn(x.declared, k); }
        }
      } else if id !in x.After() {
        var i :| 0 <= i < |x.Ops()| && x.Ops()[i].Rm? && x.Ops()[i].id == id && x.Ok()[i];
        RemovalWorks(x, i);
      }
    } else if id in x.After() {
      var n := x.After()[id].name;
      PassGrows(x, n);
      var k := ContentFrom(x, n, id);
      NamedIn(x.declared, k);
    }
  }

  // ----- the next plan -----

  predicate NoneOf(ops: seq<Op>, n: string) { forall i :: 0 <= i < |ops| ==> ops[i].name != n }

  predicate OnceOf(ops: seq<Op>, n: string) { forall i, j :: 0 <= i < j < |ops| ==> !(ops[i].name == n && ops[j].name == n) }

  /** A name declared at most once has at most one command of its own. */
  lemma {:induction false} OpsOnce(agent: string, declared: seq<Schedule>, index: map<string, Job>, n: string)
    requires Times(declared, n) <= 1
    ensures OnceOf(DeclaredOps(agent, declared, index), n)
    ensures Times(declared, n) == 0 ==> NoneOf(DeclaredOps(agent, declared, index), n)
  {
    hide OpFor, Names, Times;
    if |declared| > 0 {
      var front, s := declared[..|declared| - 1], declared[|declared| - 1];
      assert declared == front + [s];
      TimesStep(front, s, n);
      OpsOnce(agent, front, index, n);
      OpForNamed(agent, s, index);
      var own := OpFor(agent, s, index);
      forall i | 0 <= i < |own| ensures own[i].name == s.name { assert own[i] in own; }
      AppendOnce(DeclaredOps(agent, front, index), own, s.name, n);
    }
  }

  lemma AppendOnce(ops: seq<Op>, own: seq<Op>, name: string, n: string)
    requires OnceOf(ops, n) && |own| <= 1 && forall i :: 0 <= i < |own| ==> own[i].name == name
    requires name == n ==> NoneOf(ops, n)
    ensures OnceOf(ops + own, n)
    ensures NoneOf(ops, n) && name != n ==> NoneOf(ops + own, n)
  {
  }

  lemma {:induction false} AddedSome(ops: seq<Op>, ok: seq<bool>, n: string, i: nat)
    requires |ops| == |ok| && i < |ops|
    requires forall j :: 0 <= j < |ops| && j != i ==> ops[j].name != n
    ensures AddedIn(ops, ok, n) == if ops[i].Add? && ops[i].name == n && ok[i] then 1 else 0
  {
    var k := |ops| - 1;
    if i < k {
      AddedSome(ops[..k], ok[..k], n, i);
    } else {
      NoneAdded(ops[..k], ok[..k], n);
    }
  }

  /** The command of a schedule whose name is declared once, and where it is in the plan. */
  lemma OwnOp(x: Pass, k: nat) returns (i: nat)
    requires x.Valid() && k < |x.declared| && Times(x.declared, x.declared[k].name) == 1
    requires OpFor(x.agent, x.declared[k], x.Index()) != []
    ensures i < |x.First()| && [x.First()[i]] == OpFor(x.agent, x.declared[k], x.Index())
    ensures forall j :: 0 <= j < |x.First()| && j != i ==> x.First()[j].name != x.declared[k].name
  {
    hide DeclaredOps, LastByName, Listing, Names, OpFor, Times, TrimSpace;
    var op := OpFor(x.agent, x.declared[k], x.Index())[0];
    assert op in OpFor(x.agent, x.declared[k], x.Index());
    OpForNamed(x.agent, x.declared[k], x.Index());
    DeclaredOpsAre(x.agent, x.declared, x.Index(), op);
    i :| 0 <= i < |x.First()| && x.First()[i] == op;
    OpsOnce(x.agent, x.declared, x.Index(), x.declared[k].name);
  }

  /** The places of a name declared once. */
  lemma DeclaredOnce(declared: seq<Schedule>, i: nat, j: nat)
    requires i < |declared| && j < |declared| && declared[i].name == declared[j].name && Times(declared, declared[i].name) <= 1
    ensures i == j
  {
    if i < j { Twice(Names(declared), i, j); }
    if j < i { Twice(Names(declared), j, i); }
  }

  /** Whether a declaration without a command of its own, or with one that took effect, has one in the next plan: no. */
  lemma NothingLeft(x: Pass, jobs: seq<Job>, k: nat)
    requires x.Valid() && Listing(jobs, x.After()) && k < |x.declared|
    requires Times(x.declared, x.declared[k].name) == 1 && |Named(x.agent, x.table, x.declared[k].name)| <= 1
    requires OpFor(x.agent, x.declared[k], x.Index()) == []
          || exists i :: 0 <= i < |x.First()| && x.First()[i].name == x.declared[k].name && x.Ok()[i]
    ensures OpFor(x.agent, x.declared[k], LastByName(x.agent, jobs)) == []
  {
    hide ExecuteAll, DeclaredOps, RemovalOps, LastByName, Listing, Effective, Names, Named, OpFor, TrimSpace, Times, Grown, Matches, Gone;
    var s, n := x.declared[k], x.declared[k].name;
    NamedIn(x.declared, k);
    NamedAfter(x, n);
    OneLeft(x, k);
    StaysKeyed(x.agent, x.table, x.Ops(), x.outcomes);
    IndexIs(x.agent, x.After(), jobs, n);
    assert |Named(x.agent, x.After(), n)| == 1;
    NamedMembers(x.agent, x.After(), n);
    var id := LastByName(x.agent, jobs)[n].id;
    PassShrinks(x, id);
    StillMatches(x, k, id);
    NothingToDo(x.agent, s, LastByName(x.agent, jobs));
  }

  lemma OneLeft(x: Pass, k: nat)
    requires x.Valid() && k < |x.declared|
    requires Times(x.declared, x.declared[k].name) == 1 && |Named(x.agent, x.table, x.declared[k].name)| <= 1
    requires OpFor(x.agent, x.declared[k], x.Index()) == []
          || exists i :: 0 <= i < |x.First()| && x.First()[i].name == x.declared[k].name && x.Ok()[i]
    ensures |Named(x.agent, x.Mid(), x.declared[k].name)| == 1
  {
    hide ExecuteAll, DeclaredOps, RemovalOps, LastByName, Listing, Effective, Names, Named, TrimSpace, Times, Grown, AddedIn, OpFor;
    var n := x.declared[k].name;
    IndexIs(x.agent, x.table, x.jobs, n);
    if n in x.Index() {
      NamedMid(x, n);
    } else {
      OpForAbsent(x.agent, x.declared[k], x.Index());
      PassGrows(x, n);
      TwoPhases(x);
      var i := OwnOp(x, k);
      FirstAimed(x, i);
      AddedSome(x.First(), Effective(x.agent, x.table, x.First(), x.outcomes[..|x.First()|]), n, i);
      assert x.First()[i] in OpFor(x.agent, x.declared[k], x.Index());
      OpForNamed(x.agent, x.declared[k], x.Index());
    }
  }

  lemma StillMatches(x: Pass, k: nat, id: string)
    requires x.Valid() && k < |x.declared| && Times(x.declared, x.declared[k].name) == 1
    requires |Named(x.agent, x.Mid(), x.declared[k].name)| == 1 && id in Named(x.agent, x.Mid(), x.declared[k].name)
    requires OpFor(x.agent, x.declared[k], x.Index()) == []
          || exists i :: 0 <= i < |x.First()| && x.First()[i].name == x.declared[k].name && x.Ok()[i]
    ensures id in x.Mid() && Matches(x.agent, x.declared[k], x.Mid()[id])
  {
    hide ExecuteAll, DeclaredOps, RemovalOps, LastByName, Listing, Effective, Names, TrimSpace, Times, Grown, OpFor, Matches;
    var n := x.declared[k].name;
    var m := ContentFrom(x, n, id);
    if m >= 0 {
      DeclaredOnce(x.declared, m, k);
    } else {
      assert id in Named(x.agent, x.table, n);
      PassGrows(x, n);
      IndexIs(x.agent, x.table, x.jobs, n);
      OneOnly(Named(x.agent, x.Mid(), n), id, x.Index()[n].id);
      NoCommand(x, k, id);
      NothingToDo(x.agent, x.declared[k], x.Index());
    }
  }

  lemma NoCommand(x: Pass, k: nat, id: string)
    requires x.Valid() && k < |x.declared| && Times(x.declared, x.declared[k].name) == 1
    requires x.declared[k].name in x.Index() && x.Index()[x.declared[k].name].id == id
    requires forall i :: 0 <= i < |x.First()| && x.First()[i].Edit? && x.First()[i].id == id ==> !x.Ok()[i]
    ensures (exists i :: 0 <= i < |x.First()| && x.First()[i].name == x.declared[k].name && x.Ok()[i]) ==> false
  {
    hide ExecuteAll, DeclaredOps, RemovalOps, LastByName, Listing, Effective, Names, TrimSpace, Times, OpFor;
    forall i | 0 <= i < |x.First()| && x.First()[i].name == x.declared[k].name ensures !x.Ok()[i] {
      FirstAimed(x, i);
      assert x.First()[i] in x.First();
      var m := DeclaredOpFrom(x.agent, x.declared, x.Index(), x.First()[i]);
    }
  }

  /** Of a name declared once that at most one job of the agent's has: its command comes up again exactly when it was
      planned and did not take effect. */
  lemma NextOp(x: Pass, jobs: seq<Job>, k: nat, op: Op)
    requires x.Valid() && Listing(jobs, x.After()) && k < |x.declared|
    requires Times(x.declared, x.declared[k].name) == 1 && |Named(x.agent, x.table, x.declared[k].name)| <= 1
    ensures op in OpFor(x.agent, x.declared[k], LastByName(x.agent, jobs))
       <==> op in OpFor(x.agent, x.declared[k], x.Index()) && exists i :: 0 <= i < |x.Ops()| && x.Ops()[i] == op && !x.Ok()[i]
  {
    hide ExecuteAll, DeclaredOps, RemovalOps, LastByName, Listing, Effective, Names, Named, OpFor, TrimSpace, Times;
    FirstIsFirst(x);
    if OpFor(x.agent, x.declared[k], x.Index()) == [] {
      NothingLeft(x, jobs, k);
    } else {
      var i := OwnOp(x, k);
      assert x.First()[i] in OpFor(x.agent, x.declared[k], x.Index());
      OpForNamed(x.agent, x.declared[k], x.Index());
      forall j | 0 <= j < |x.Ops()| && x.Ops()[j] == x.First()[i] ensures j == i {
        RemovalsLast(x, j);
      }
      if x.Ok()[i] {
        NothingLeft(x, jobs, k);
      } else {
        NothingDone(x, jobs, k, i);
      }
    }
  }

  lemma NothingDone(x: Pass, jobs: seq<Job>, k: nat, i: nat)
    requires x.Valid() && Listing(jobs, x.After()) && k < |x.declared| && i < |x.First()|
    requires |Named(x.agent, x.table, x.declared[k].name)| <= 1
    requires x.First()[i].name == x.declared[k].name && !x.Ok()[i]
    requires forall j :: 0 <= j < |x.First()| && j != i ==> x.First()[j].name != x.declared[k].name
    ensures OpFor(x.agent, x.declared[k], LastByName(x.agent, jobs)) == OpFor(x.agent, x.declared[k], x.Index())
  {
    hide ExecuteAll, DeclaredOps, RemovalOps, LastByName, Listing, Effective, Names, OpFor, TrimSpace, Times, Grown, AddedIn, Gone, Matches;
    var n := x.declared[k].name;
    NamedIn(x.declared, k);
    NamedAfter(x, n);
    PassGrows(x, n);
    TwoPhases(x);
    var ok := Effective(x.agent, x.table, x.First(), x.outcomes[..|x.First()|]);
    AddedSome(x.First(), ok, n, i);
    SubsetSame(Named(x.agent, x.table, n), Named(x.agent, x.Mid(), n));
    StaysKeyed(x.agent, x.table, x.Ops(), x.outcomes);
    IndexIs(x.agent, x.After(), jobs, n);
    IndexIs(x.agent, x.table, x.jobs, n);
    if n in x.Index() {
      var id := LastByName(x.agent, jobs)[n].id;
      OneOnly(Named(x.agent, x.table, n), id, x.Index()[n].id);
      PassShrinks(x, id);
      var m := ContentFrom(x, n, id);
      assert LastByName(x.agent, jobs)[n] == x.Index()[n];
    }
    SameOpFor(x.agent, x.declared[k], x.Index(), LastByName(x.agent, jobs));
  }

  lemma SameOpFor(agent: string, s: Schedule, a: map<string, Job>, b: map<string, Job>)
    requires (s.name in a <==> s.name in b) && (s.name in a ==> a[s.name] == b[s.name])
    ensures OpFor(agent, s, a) == OpFor(agent, s, b)
  {
    hide Differs;
  }

  /** After a pass whose declared names are each declared once and unambiguous, the next plan is exactly the failed
      additions and edits: nothing that worked is done again, and no removal ever is, whether it worked or not. */
  lemma NextPlan(x: Pass, jobs: seq<Job>, next: seq<string>, op: Op)
    requires x.Valid() && Listing(jobs, x.After()) && forall n :: n in next ==> n in Names(x.declared)
    requires forall n :: n in Names(x.declared) ==> Times(x.declared, n) == 1 && |Named(x.agent, x.table, n)| <= 1
    ensures op in Plan(x.agent, x.declared, next, LastByName(x.agent, jobs))
       <==> !op.Rm? && exists i :: 0 <= i < |x.Ops()| && x.Ops()[i] == op && !x.Ok()[i]
  {
    hide ExecuteAll, DeclaredOps, RemovalOps, LastByName, Listing, Effective, Names, Named, OpFor, TrimSpace, Times, Removes;
    var index := LastByName(x.agent, jobs);
    RemovalOpsAre(x.declared, next, index, op);
    if Removes(x.declared, next, index, op) { RemovedName(x.declared, next, index, op); }
    DeclaredOpsAre(x.agent, x.declared, index, op);
    DeclaredOpsAre(x.agent, x.declared, x.Index(), op);
    if op in DeclaredOps(x.agent, x.declared, index) {
      var k := DeclaredOpFrom(x.agent, x.declared, index, op);
      NextOp(x, jobs, k, op);
    }
    forall i | 0 <= i < |x.Ops()| && x.Ops()[i] == op && !x.Ok()[i] && !op.Rm?
      ensures op in DeclaredOps(x.agent, x.declared, index)
    {
      RemovalsLast(x, i);
      assert op == x.First()[i];
      var k := DeclaredOpFrom(x.agent, x.declared, x.Index(), op);
      NextOp(x, jobs, k, op);
    }
  }

  /** A removal that failed is forgotten: after any later pass over the same declarations, however its commands go, a
      formerly declared name is gone exactly when the agent had no job of it, or had one and its removal worked. */
  lemma FailedRemovalForgotten(x: Pass, y: Pass, n: string)
    requires x.Valid() && y.Valid() && y.agent == x.agent && y.declared == x.declared && y.table == x.After()
    requires forall m :: m in y.previous ==> m in Names(y.declared)
    requires n in x.previous && n !in Names(x.declared)
    ensures Named(x.agent, y.After(), n) == {}
       <==> Named(x.agent, x.table, n) == {} || (|Named(x.agent, x.table, n)| == 1 && Gone(x, n))
  {
    hide ExecuteAll, DeclaredOps, RemovalOps, LastByName, Listing, Effective, Names, Named, Gone, Plan;
    NamedAfter(x, n);
    NamedAfter(y, n);
    if Gone(x, n) {
      var id := x.Index()[n].id;
      assert |Named(x.agent, x.table, n) - {id}| == |Named(x.agent, x.table, n)| - 1;
    }
  }
}
