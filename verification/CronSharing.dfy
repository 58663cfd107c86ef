/** Several agents' passes over one cron table: when one agent's pass leaves what another's has achieved. */
module CronSharing {
  import opened Values
  import opened Schedules
  import opened ScheduleConvergence

  /** An edit or a removal of the pass took effect on the job. */
  ghost predicate Takes(y: Pass, id: string)
    requires |y.outcomes| == |y.Ops()|
  {
    exists i :: 0 <= i < |y.Ops()| && !y.Ops()[i].Add? && y.Ops()[i].id == id && y.Ok()[i]
  }

  ghost predicate EditedIn(ops: seq<Op>, ok: seq<bool>, id: string)
    requires |ops| == |ok|
  {
    exists i :: 0 <= i < |ops| && ops[i].Edit? && ops[i].id == id && ok[i]
  }

  lemma EditedMore(ops: seq<Op>, ok: seq<bool>, id: string)
    requires |ops| == |ok| > 0
    ensures var k := |ops| - 1;
            EditedIn(ops, ok, id) <==> EditedIn(ops[..k], ok[..k], id) || (ops[k].Edit? && ops[k].id == id && ok[k])
  {
    var k := |ops| - 1;
    if EditedIn(ops, ok, id) {
      var i :| 0 <= i < |ops| && ops[i].Edit? && ops[i].id == id && ok[i];
      if i < k { assert ops[..k][i] == ops[i] && ok[..k][i]; }
    }
    if EditedIn(ops[..k], ok[..k], id) {
      var i :| 0 <= i < k && ops[..k][i].Edit? && ops[..k][i].id == id && ok[..k][i];
      assert ops[i].Edit? && ops[i].id == id && ok[i];
    }
  }

  /** Additions and edits make the jobs they work on the agent's own, and leave the others as they are. */
  lemma {:induction false} OwnedOnce(agent: string, table: Table, ops: seq<Op>, outcomes: seq<Outcome>, id: string)
    requires Keyed(table) && |ops| == |outcomes|
    requires forall i :: 0 <= i < |ops| ==> !ops[i].Rm? && Aimed(agent, table, ops[i])
    ensures var after := ExecuteAll(agent, table, ops, outcomes);
            if id !in table then id in after ==> after[id].agentId == agent
            else id in after && if EditedIn(ops, Effective(agent, table, ops, outcomes), id) then after[id].agentId == agent
                                else after[id] == table[id]
  {
    hide Grown, Effective, Aimed, EditedIn;
    if |ops| > 0 {
      var k := |ops| - 1;
      EffectiveLast(agent, table, ops, outcomes);
      EffectivePrefix(agent, table, ops, outcomes, k);
      EditedMore(ops, Effective(agent, table, ops, outcomes), id);
      assert forall i :: 0 <= i < k ==> ops[..k][i] == ops[i];
      OwnedOnce(agent, table, ops[..k], outcomes[..k], id);
    } else {
      NoEdits(ops, Effective(agent, table, ops, outcomes), id);
    }
  }

  lemma NoEdits(ops: seq<Op>, ok: seq<bool>, id: string)
    requires |ops| == |ok| == 0
    ensures !EditedIn(ops, ok, id)
  {
  }

  /** In the middle of a pass. */
  lemma OwnedMid(y: Pass, id: string)
    requires y.Valid()
    ensures id !in y.table && id in y.Mid() ==> y.Mid()[id].agentId == y.agent
    ensures id in y.table ==> id in y.Mid() && (y.Mid()[id].agentId == y.agent || y.Mid()[id] == y.table[id])
    ensures id in y.table && (forall i :: 0 <= i < |y.First()| && y.First()[i].Edit? && y.First()[i].id == id ==> !y.Ok()[i])
        ==> y.Mid()[id] == y.table[id]
    ensures id in y.table && (exists i :: 0 <= i < |y.First()| && y.First()[i].Edit? && y.First()[i].id == id && y.Ok()[i])
        ==> y.Mid()[id].agentId == y.agent
  {
    hide ExecuteAll, DeclaredOps, RemovalOps, LastByName, Listing, Effective, Aimed;
    var ops, outcomes := y.First(), y.outcomes[..|y.First()|];
    forall i | 0 <= i < |ops| ensures !ops[i].Rm? && Aimed(y.agent, y.table, ops[i]) { FirstAimed(y, i); }
    OwnedOnce(y.agent, y.table, ops, outcomes, id);
    TwoPhases(y);
    var ok := Effective(y.agent, y.table, ops, outcomes);
    assert forall i :: 0 <= i < |ops| ==> y.Ok()[i] == ok[i];
  }

  /** A pass takes only jobs it may see, of names its agent declares or declared. */
  lemma TakesVisible(y: Pass, id: string)
    requires y.Valid() && Takes(y, id)
    ensures id in y.table && Visible(y.agent, y.table[id])
    ensures y.table[id].name in Names(y.declared) || y.table[id].name in y.previous
  {
    hide ExecuteAll, DeclaredOps, RemovalOps, LastByName, Listing, Effective, Names, Plan;
    var i :| 0 <= i < |y.Ops()| && !y.Ops()[i].Add? && y.Ops()[i].id == id && y.Ok()[i];
    RemovalsLast(y, i);
    if y.Ops()[i].Rm? {
      RemovalWorks(y, i);
    } else {
      FirstIsFirst(y);
      FirstAimed(y, i);
    }
  }

  /** What another agent's pass leaves of an agent's jobs: all but those it takes, unchanged. */
  lemma JobsLeft(y: Pass, a: string, n: string, id: string)
    requires y.Valid() && y.agent != a && y.agent != ""
    ensures id in Named(a, y.After(), n) <==> id in Named(a, y.table, n) && !Takes(y, id)
    ensures id in Named(a, y.After(), n) ==> y.After()[id] == y.table[id]
  {
    hide ExecuteAll, DeclaredOps, RemovalOps, LastByName, Listing, Effective, Names, Plan, Takes;
    PassShrinks(y, id);
    OwnedMid(y, id);
    if Takes(y, id) { TakenAway(y, id); } else { NotTaken(y, id); }
  }

  lemma TakenAway(y: Pass, id: string)
    requires y.Valid() && Takes(y, id)
    ensures id in y.After() ==> y.After()[id].agentId == y.agent
  {
    hide ExecuteAll, DeclaredOps, RemovalOps, LastByName, Listing, Effective, Names, Plan;
    TakesVisible(y, id);
    PassShrinks(y, id);
    OwnedMid(y, id);
    var i :| 0 <= i < |y.Ops()| && !y.Ops()[i].Add? && y.Ops()[i].id == id && y.Ok()[i];
    RemovalsLast(y, i);
    FirstIsFirst(y);
    if y.Ops()[i].Rm? { RemovalWorks(y, i); }
  }

  lemma NotTaken(y: Pass, id: string)
    requires y.Valid() && !Takes(y, id)
    ensures id in y.table ==> id in y.After() && y.After()[id] == y.table[id]
  {
    hide ExecuteAll, DeclaredOps, RemovalOps, LastByName, Listing, Effective, Names, Plan;
    PassShrinks(y, id);
    OwnedMid(y, id);
    FirstIsFirst(y);
  }

  lemma NamedLeft(y: Pass, a: string, n: string)
    requires y.Valid() && y.agent != a && y.agent != ""
    ensures Named(a, y.After(), n) == set id | id in Named(a, y.table, n) && !Takes(y, id)
    ensures forall id :: id in Named(a, y.table, n) ==> id in y.table
    ensures forall id :: id in Named(a, y.After(), n) ==> id in y.After() && y.After()[id] == y.table[id]
  {
    hide ExecuteAll, Named, Takes, Plan, Effective, Listing;
    NamedMembers(a, y.table, n);
    NamedMembers(a, y.After(), n);
    forall id ensures id in Named(a, y.After(), n) <==> id in Named(a, y.table, n) && !Takes(y, id) { JobsLeft(y, a, n, id); }
    forall id | id in Named(a, y.After(), n) ensures y.After()[id] == y.table[id] { JobsLeft(y, a, n, id); }
  }

  /** Another agent's pass leaves what an agent's passes have achieved exactly when it takes none of its declared jobs. */
  lemma OtherPassExactly(y: Pass, a: string, declared: seq<Schedule>, previous: seq<string>)
    requires y.Valid() && y.agent != a && y.agent != "" && Converged(a, declared, previous, y.table)
    ensures Converged(a, declared, previous, y.After())
       <==> forall k, id :: 0 <= k < |declared| && id in Named(a, y.table, declared[k].name) ==> !Takes(y, id)
  {
    hide ExecuteAll, Names, Named, Matches, Takes, Plan, Effective, Listing;
    if forall k, id :: 0 <= k < |declared| && id in Named(a, y.table, declared[k].name) ==> !Takes(y, id) {
      forall k | 0 <= k < |declared|
        ensures |Named(a, y.After(), declared[k].name)| == 1
        ensures forall id :: id in Named(a, y.After(), declared[k].name) ==>
                  id in y.After() && Matches(a, declared[k], y.After()[id])
      {
        NamedLeft(y, a, declared[k].name);
        assert Named(a, y.After(), declared[k].name) == Named(a, y.table, declared[k].name);
      }
      forall n | n in previous && n !in Names(declared) ensures Named(a, y.After(), n) == {} { NamedLeft(y, a, n); }
    } else {
      var k, id :| 0 <= k < |declared| && id in Named(a, y.table, declared[k].name) && Takes(y, id);
      NamedLeft(y, a, declared[k].name);
      OnlyMember(Named(a, y.table, declared[k].name), id);
      assert Named(a, y.After(), declared[k].name) == {};
    }
  }

  /** The declared jobs name the agent, as those do that its passes added or edited. */
  ghost predicate Own(a: string, declared: seq<Schedule>, table: Table) {
    forall k, id :: 0 <= k < |declared| && id in Named(a, table, declared[k].name) ==> table[id].agentId == a
  }

  /** Each pass is over the table the one before left, and none is the agent's. */
  ghost predicate OthersFrom(a: string, table: Table, passes: seq<Pass>)
    decreases passes
  {
    |passes| > 0 ==>
      && passes[0].Valid() && passes[0].agent != a && passes[0].agent != "" && passes[0].table == table
      && OthersFrom(a, passes[0].After(), passes[1..])
  }

  ghost function TableAfter(a: string, table: Table, passes: seq<Pass>): Table
    requires OthersFrom(a, table, passes)
    decreases passes
  {
    if |passes| == 0 then table else TableAfter(a, passes[0].After(), passes[1..])
  }

  /** So only jobs without an agent can be lost to others: over any run of other agents' passes, however their commands
      go, an agent whose declared jobs are its own stays converged. */
  lemma {:induction false} OthersKeepConverged(a: string, declared: seq<Schedule>, previous: seq<string>, table: Table,
      passes: seq<Pass>)
    requires a != "" && OthersFrom(a, table, passes)
    requires Converged(a, declared, previous, table) && Own(a, declared, table)
    ensures Converged(a, declared, previous, TableAfter(a, table, passes)) && Own(a, declared, TableAfter(a, table, passes))
    decreases passes
  {
    if |passes| > 0 {
      hide Converged, Own, Plan;
      OtherPassKeepsOwn(passes[0], a, declared, previous);
      OthersKeepConverged(a, declared, previous, passes[0].After(), passes[1..]);
    }
  }

  lemma OtherPassKeepsOwn(y: Pass, a: string, declared: seq<Schedule>, previous: seq<string>)
    requires y.Valid() && y.agent != a && y.agent != "" && a != ""
    requires Converged(a, declared, previous, y.table) && Own(a, declared, y.table)
    ensures Converged(a, declared, previous, y.After()) && Own(a, declared, y.After())
  {
    hide ExecuteAll, Names, Takes, Plan, Effective, Listing, Converged, Named;
    forall k | 0 <= k < |declared|
      ensures forall id :: id in Named(a, y.table, declared[k].name) ==> !Takes(y, id)
      ensures forall id :: id in Named(a, y.After(), declared[k].name) ==> id in y.After() && y.After()[id].agentId == a
    {
      NamedLeft(y, a, declared[k].name);
      forall id | id in Named(a, y.table, declared[k].name) ensures !Takes(y, id) {
        if Takes(y, id) { TakesVisible(y, id); }
      }
    }
    OtherPassExactly(y, a, declared, previous);
    OwnMembers(y, a, declared);
  }

  lemma OwnMembers(y: Pass, a: string, declared: seq<Schedule>)
    requires y.Valid()
    requires forall k :: 0 <= k < |declared| ==>
               forall id :: id in Named(a, y.After(), declared[k].name) ==> id in y.After() && y.After()[id].agentId == a
    ensures Own(a, declared, y.After())
  {
    hide Named, Plan, Listing;
  }
}
