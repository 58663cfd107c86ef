/** Status conditions: one per type, sorted by type, each remembering when its status last changed. */
module Conditions {
  import opened Values
  import opened Text

  datatype Condition = Condition(kind: string, status: string, reason: string, message: string, since: int)

  function Update(m: map<string, Condition>, c: Condition): map<string, Condition> {
    m[c.kind := if c.kind in m && m[c.kind].status == c.status then c.(since := m[c.kind].since) else c]
  }

  function UpdateAll(m: map<string, Condition>, updates: seq<Condition>): map<string, Condition> {
    if |updates| == 0 then m else Update(UpdateAll(m, updates[..|updates| - 1]), updates[|updates| - 1])
  }

  ghost predicate Strict(names: seq<string>) {
    forall i, j :: 0 <= i < j < |names| ==> Leq(names[i], names[j]) && names[i] != names[j]
  }

  function Kinds(list: seq<Condition>): seq<string> { seq(|list|, i requires 0 <= i < |list| => list[i].kind) }

  /** The list holds exactly the map's conditions, in strictly increasing order of their types. */
  ghost predicate Lists(list: seq<Condition>, m: map<string, Condition>) {
    && Strict(Kinds(list))
    && (forall i :: 0 <= i < |list| ==> list[i].kind in m && m[list[i].kind] == list[i])
    && (forall k :: k in m ==> k in Kinds(list))
  }

  ghost predicate Keyed(m: map<string, Condition>) { forall k :: k in m ==> m[k].kind == k }

  lemma {:induction false} UpdatesKeyed(m: map<string, Condition>, updates: seq<Condition>)
    requires Keyed(m)
    ensures Keyed(UpdateAll(m, updates))
  {
    if |updates| > 0 { UpdatesKeyed(m, updates[..|updates| - 1]); }
  }

  lemma {:induction false} UpdatesCompose(m: map<string, Condition>, a: seq<Condition>, b: seq<Condition>)
    ensures UpdateAll(m, a + b) == UpdateAll(UpdateAll(m, a), b)
  {
    hide Update;
    if |b| > 0 {
      assert (a + b)[..|a + b| - 1] == a + b[..|b| - 1];
      UpdatesCompose(m, a, b[..|b| - 1]);
    } else {
      assert a + b == a;
    }
  }

  // ----- the history behind a condition -----

  /** `k` is the latest update that changed the status recorded for its type. */
  ghost predicate LastChange(history: seq<Condition>, kind: string, k: nat) {
    && k < |history| && history[k].kind == kind
    && (forall j :: k <= j < |history| && history[j].kind == kind ==> history[j].status == history[k].status)
    && forall j :: Precedes(history, kind, j, k) ==> history[j].status != history[k].status
  }

  /** `j` is the update of that type just before `k`. */
  ghost predicate Precedes(history: seq<Condition>, kind: string, j: int, k: nat) {
    && 0 <= j < k <= |history| && history[j].kind == kind
    && forall i :: j < i < k ==> history[i].kind != kind
  }

  /** `k` is the latest update of its type. */
  ghost predicate Latest(history: seq<Condition>, kind: string, k: int) { Precedes(history, kind, k, |history|) }

  /** From the whole history of updates: a type has a condition exactly when it was ever updated; the condition reads as
      in its latest update, and its transition time is that of the update which last changed its status. */
  lemma {:induction false} Remembers(history: seq<Condition>, kind: string) returns (last: nat, change: nat)
    ensures kind in UpdateAll(map[], history) <==> exists i :: 0 <= i < |history| && history[i].kind == kind
    ensures kind in UpdateAll(map[], history) ==>
              && Latest(history, kind, last) && LastChange(history, kind, change)
              && UpdateAll(map[], history)[kind] == history[last].(since := history[change].since)
  {
    last, change := 0, 0;
    if |history| > 0 {
      var front, c := history[..|history| - 1], history[|history| - 1];
      assert history == front + [c];
      last, change := Remembers(front, kind);
      var m := UpdateAll(map[], front);
      if c.kind == kind {
        if kind in m {
          assert Precedes(history, kind, last, |front|);
        }
        assert forall j :: Precedes(history, kind, j, |front|) ==> Precedes(front, kind, j, |front|);
        if !(kind in m && m[kind].status == c.status) { change := |front|; } else { Earlier(front, c, kind, change); }
        last := |front|;
      } else if kind in m {
        Earlier(front, c, kind, change);
        assert Latest(history, kind, last);
      }
    }
  }

  /** The condition reads as update `last`, with the time of update `change`. */
  ghost predicate Tells(history: seq<Condition>, c: Condition, last: nat, change: nat) {
    && Latest(history, c.kind, last) && LastChange(history, c.kind, change)
    && c == history[last].(since := history[change].since)
  }

  ghost predicate Told(history: seq<Condition>, c: Condition) {
    exists last: nat, change: nat :: Tells(history, c, last, change)
  }

  ghost predicate Updated(history: seq<Condition>, kind: string) {
    exists i :: 0 <= i < |history| && history[i].kind == kind
  }

  /** The same, of the list of conditions itself: one entry per type ever updated, in strict order, each with the
      contents of its latest update and the time of its latest change of status. */
  lemma EveryCondition(list: seq<Condition>, history: seq<Condition>)
    requires Lists(list, UpdateAll(map[], history))
    ensures Strict(Kinds(list))
    ensures forall k :: k in Kinds(list) <==> Updated(history, k)
    ensures forall i :: 0 <= i < |list| ==> Told(history, list[i])
  {
    hide Updated, Told, Kinds, Strict, UpdateAll;
    forall k ensures k in Kinds(list) <==> Updated(history, k) { Listed(list, history, k); }
    forall i | 0 <= i < |list| ensures Told(history, list[i]) {
      ToldAt(list, history, i);
    }
  }

  lemma Listed(list: seq<Condition>, history: seq<Condition>, k: string)
    requires Lists(list, UpdateAll(map[], history))
    ensures k in Kinds(list) <==> Updated(history, k)
  {
    hide UpdateAll, Latest, LastChange, Strict;
    var last, change := Remembers(history, k);
    if k in Kinds(list) {
      var i :| 0 <= i < |list| && Kinds(list)[i] == k;
      assert list[i].kind in UpdateAll(map[], history);
    }
  }

  lemma ToldAt(list: seq<Condition>, history: seq<Condition>, i: nat)
    requires Lists(list, UpdateAll(map[], history)) && i < |list|
    ensures Told(history, list[i])
  {
    hide UpdateAll, LastChange, Precedes, Strict;
    var last, change := Remembers(history, list[i].kind);
    assert list[i] == UpdateAll(map[], history)[list[i].kind];
    assert Tells(history, list[i], last, change);
  }

  lemma Earlier(front: seq<Condition>, c: Condition, kind: string, k: nat)
    requires k < |front|
    ensures forall j :: Precedes(front + [c], kind, j, k) <==> Precedes(front, kind, j, k)
  {
    var all := front + [c];
    assert forall i :: 0 <= i < |front| ==> all[i] == front[i];
    forall j ensures Precedes(all, kind, j, k) <==> Precedes(front, kind, j, k) {
      if Precedes(all, kind, j, k) { assert forall i :: j < i < k ==> front[i] == all[i]; }
    }
  }

  // ----- the code -----

  /** Merges updates into a list of conditions; of equal types in the list the last one counts. */
  method Merge(existing: seq<Condition>, updates: seq<Condition>) returns (out: seq<Condition>)
    ensures Lists(out, UpdateAll(LastOfEach(existing), updates))
  {
    var byType: map<string, Condition> := map[];
    for i := 0 to |existing|
      invariant byType == LastOfEach(existing[..i])
    {
      assert existing[..i + 1][..i] == existing[..i];
      byType := byType[existing[i].kind := existing[i]];
    }
    assert existing[..|existing|] == existing;
    LastOfEachKeyed(existing);
    for i := 0 to |updates|
      invariant byType == UpdateAll(LastOfEach(existing), updates[..i])
    {
      assert updates[..i + 1][..i] == updates[..i];
      var c := updates[i];
      if c.kind in byType && byType[c.kind].status == c.status {
        c := c.(since := byType[c.kind].since);
      }
      byType := byType[c.kind := c];
    }
    assert updates[..|updates|] == updates;
    UpdatesKeyed(LastOfEach(existing), updates);
    var keys := KeysOf(byType);
    out := [];
    for i := 0 to |keys|
      invariant |out| == i && forall j :: 0 <= j < i ==> out[j] == byType[keys[j]]
    {
      out := out + [byType[keys[i]]];
    }
    assert Kinds(out) == keys;
  }

  function LastOfEach(existing: seq<Condition>): map<string, Condition> {
    if |existing| == 0 then map[]
    else LastOfEach(existing[..|existing| - 1])[existing[|existing| - 1].kind := existing[|existing| - 1]]
  }

  lemma {:induction false} LastOfEachKeyed(existing: seq<Condition>)
    ensures Keyed(LastOfEach(existing))
  {
    if |existing| > 0 { LastOfEachKeyed(existing[..|existing| - 1]); }
  }

  /** The sorted keys of a map. */
  method KeysOf(m: map<string, Condition>) returns (keys: seq<string>)
    ensures Strict(keys)
    ensures forall k :: k in keys <==> k in m
  {
    keys := SortedListing(m.Keys);
  }

  /** A list read back is the map it lists, so the next merge starts from everything the last one knew. */
  lemma ReadBack(list: seq<Condition>, m: map<string, Condition>)
    requires Lists(list, m)
    ensures LastOfEach(list) == m
  {
    hide LastOfEach, Strict;
    forall k ensures k in m <==> k in LastOfEach(list) {
      LastOfEachHas(list, k);
      if k in m { var i :| 0 <= i < |list| && Kinds(list)[i] == k; assert list[i].kind == k; }
    }
    forall k | k in m ensures LastOfEach(list)[k] == m[k] {
      var i :| 0 <= i < |list| && Kinds(list)[i] == k;
      LastOfDistinct(list, i);
    }
  }

  lemma {:induction false} LastOfEachHas(list: seq<Condition>, k: string)
    ensures k in LastOfEach(list) <==> exists i :: 0 <= i < |list| && list[i].kind == k
  {
    if |list| > 0 {
      var front := list[..|list| - 1];
      LastOfEachHas(front, k);
      assert forall i :: 0 <= i < |front| ==> list[i] == front[i];
    }
  }

  lemma {:induction false} LastOfDistinct(list: seq<Condition>, i: nat)
    requires i < |list| && Strict(Kinds(list))
    ensures list[i].kind in LastOfEach(list) && LastOfEach(list)[list[i].kind] == list[i]
  {
    if i < |list| - 1 {
      var front := list[..|list| - 1];
      assert Kinds(front) == Kinds(list)[..|list| - 1];
      LastOfDistinct(front, i);
      assert Kinds(list)[i] != Kinds(list)[|list| - 1];
    }
  }

  /** The conditions of one status object over its whole life. */
  class StatusConditions {
    var conditions: seq<Condition>
    ghost var history: seq<Condition>

    ghost predicate Valid()
      reads this
    {
      Lists(conditions, UpdateAll(map[], history))
    }

    constructor ()
      ensures Valid() && history == [] && conditions == []
    {
      conditions, history := [], [];
    }

    method Record(updates: seq<Condition>)
      requires Valid()
      modifies this
      ensures Valid() && history == old(history) + updates
    {
      ReadBack(conditions, UpdateAll(map[], history));
      UpdatesCompose(map[], history, updates);
      conditions := Merge(conditions, updates);
      history := history + updates;
    }
  }
}
