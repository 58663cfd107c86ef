/** When the visiting order of finished runs decides which run is named champion and how many are counted as kept. */
module ChampionOrders {
  import opened Values
  import opened Losses
  import opened AutoResearch
  import opened DrainOrders
  import opened Champions

  /** The losses of the runs visited, in order; runs without one are passed over. */
  function EntriesOf(order: seq<string>, losses: map<string, real>): seq<Entry> {
    if |order| == 0 then []
    else
      var id := order[|order| - 1];
      EntriesOf(order[..|order| - 1], losses) + if id in losses then [Entry(id, losses[id])] else []
  }

  function VisitOrder(min: bool, c: Champ, order: seq<string>, losses: map<string, real>): Champ {
    VisitAll(min, c, EntriesOf(order, losses))
  }

  lemma VisitOrderStep(min: bool, c: Champ, front: seq<string>, id: string, losses: map<string, real>)
    ensures VisitOrder(min, c, front + [id], losses)
         == if id in losses then Visit(min, VisitOrder(min, c, front, losses), Entry(id, losses[id]))
            else VisitOrder(min, c, front, losses)
  {
    hide Visit;
    assert (front + [id])[..|front|] == front;
    if id in losses {
      VisitSnoc(min, c, EntriesOf(front, losses), Entry(id, losses[id]));
    } else {
      assert EntriesOf(front, losses) + [] == EntriesOf(front, losses);
    }
  }

  lemma {:induction false} VisitOrderAppend(min: bool, c: Champ, a: seq<string>, b: seq<string>, losses: map<string, real>)
    ensures VisitOrder(min, c, a + b, losses) == VisitOrder(min, VisitOrder(min, c, a, losses), b, losses)
  {
    hide VisitOrder, Visit;
    if |b| == 0 {
      assert a + b == a;
      NoneVisited(min, VisitOrder(min, c, a, losses), losses);
    } else {
      var front, id := b[..|b| - 1], b[|b| - 1];
      assert b == front + [id] && a + b == a + front + [id];
      VisitOrderAppend(min, c, a, front, losses);
      VisitOrderStep(min, c, a + front, id, losses);
      VisitOrderStep(min, VisitOrder(min, c, a, losses), front, id, losses);
    }
  }

  lemma NoneVisited(min: bool, c: Champ, losses: map<string, real>)
    ensures VisitOrder(min, c, [], losses) == c
  {
  }

  lemma {:induction false} EntriesAre(order: seq<string>, losses: map<string, real>, e: Entry)
    ensures e in EntriesOf(order, losses) <==> e.id in order && e.id in losses && losses[e.id] == e.loss
  {
    if |order| > 0 {
      var front, id := order[..|order| - 1], order[|order| - 1];
      assert order == front + [id];
      EntriesAre(front, losses, e);
    }
  }

  // ----- the stored loss in the end -----

  /** The best of the stored loss and the rounded new ones. */
  ghost predicate Final(min: bool, start: Option<int>, losses: map<string, real>, best: Option<int>) {
    && (best.None? ==> start.None? && losses == map[])
    && (best.Some? ==>
          && (start.Some? ==> !Ahead(min, start.value, best.value))
          && (forall id :: id in losses ==> !Ahead(min, Micro(losses[id]), best.value))
          && (start == best || exists id :: id in losses && Micro(losses[id]) == best.value))
  }

  lemma FinalUnique(min: bool, start: Option<int>, losses: map<string, real>, a: Option<int>, b: Option<int>)
    requires Final(min, start, losses, a) && Final(min, start, losses, b)
    ensures a == b
  {
    hide Micro;
  }

  lemma FinalBest(min: bool, c: Champ, order: seq<string>, losses: map<string, real>, keys: set<string>)
    requires OrderOf(order, keys) && losses.Keys <= keys
    ensures Final(min, c.best, losses, VisitOrder(min, c, order, losses).best)
  {
    hide Micro, VisitAll, EntriesOf;
    var entries := EntriesOf(order, losses);
    VisitReaches(min, c, entries);
    var best := VisitOrder(min, c, order, losses).best;
    forall id | id in losses ensures Entry(id, losses[id]) in entries { EntriesAre(order, losses, Entry(id, losses[id])); }
    forall i | 0 <= i < |entries| ensures entries[i].id in losses && losses[entries[i].id] == entries[i].loss {
      assert entries[i] in entries;
      EntriesAre(order, losses, entries[i]);
    }
    if best.Some? && best != c.best {
      var i :| 0 <= i < |entries| && Micro(entries[i].loss) == best.value;
      assert Micro(losses[entries[i].id]) == best.value;
    }
  }

  // ----- who is named -----

  /** Runs under the final stored loss, runs that round to it from the other side, and runs that beat the present one. */
  function UnderIds(min: bool, losses: map<string, real>, best: Option<int>): set<string> {
    set id | id in losses && best.Some? && Under(min, best.value, losses[id])
  }

  function OverIds(min: bool, losses: map<string, real>, best: Option<int>): set<string> {
    set id | id in losses && best.Some? && !Under(min, best.value, losses[id]) && Micro(losses[id]) == best.value
  }

  function ImprovingIds(min: bool, losses: map<string, real>, start: Option<int>): set<string> {
    set id | id in losses && IsImprovement(start, min, losses[id])
  }

  /** The run named after an order: one under the final stored loss if there is one, else, if that loss is new, one that
      rounds to it, else the run named before. */
  lemma NamedFrom(min: bool, c: Champ, order: seq<string>, losses: map<string, real>, keys: set<string>)
    requires OrderOf(order, keys) && losses.Keys <= keys
    ensures var d := VisitOrder(min, c, order, losses);
            var under := UnderIds(min, losses, d.best);
            if under != {} then d.run in under
            else if d.best != c.best then d.run in OverIds(min, losses, d.best)
            else d.run == c.run
  {
    hide Micro, Stored, VisitAll, EntriesOf;
    var entries, d := EntriesOf(order, losses), VisitOrder(min, c, order, losses);
    var i := ChampionIs(min, c, entries);
    if i >= 0 { assert entries[i] in entries; EntriesAre(order, losses, entries[i]); }
    if UnderIds(min, losses, d.best) != {} {
      var id :| id in UnderIds(min, losses, d.best);
      EntriesAre(order, losses, Entry(id, losses[id]));
      var j :| 0 <= j < |entries| && entries[j] == Entry(id, losses[id]);
      assert Under(min, d.best.value, entries[j].loss);
    }
    if i >= 0 && Under(min, d.best.value, entries[i].loss) { assert d.run in UnderIds(min, losses, d.best); }
  }

  /** A run under the final stored loss that is visited last is named. */
  lemma LastNamed(min: bool, c: Champ, front: seq<string>, id: string, losses: map<string, real>, keys: set<string>)
    requires OrderOf(front + [id], keys) && losses.Keys <= keys
    requires id in UnderIds(min, losses, VisitOrder(min, c, front + [id], losses).best)
    ensures VisitOrder(min, c, front + [id], losses).run == id
  {
    hide Micro, Stored, VisitAll;
    var order := front + [id];
    var entries := EntriesOf(order, losses);
    assert order[..|front|] == front;
    assert entries == EntriesOf(front, losses) + [Entry(id, losses[id])];
    hide EntriesOf;
    var i := ChampionIs(min, c, entries);
    assert Under(min, VisitOrder(min, c, order, losses).best.value, entries[|entries| - 1].loss);
  }

  /** Where none is under, the first run to round to a new final stored loss is named. */
  lemma FirstNamed(min: bool, c: Champ, id: string, rest: seq<string>, losses: map<string, real>, keys: set<string>)
    requires OrderOf([id] + rest, keys) && losses.Keys <= keys
    requires var best := VisitOrder(min, c, [id] + rest, losses).best;
             best != c.best && UnderIds(min, losses, best) == {} && id in OverIds(min, losses, best)
    ensures VisitOrder(min, c, [id] + rest, losses).run == id
  {
    hide Micro, Stored, VisitAll;
    var order := [id] + rest;
    var entries, best := EntriesOf(order, losses), VisitOrder(min, c, order, losses).best;
    EntriesFirst(id, rest, losses);
    hide EntriesOf;
    var i := ChampionIs(min, c, entries);
    assert entries[i] in entries;
    EntriesAre(order, losses, entries[i]);
    assert entries[i].id !in UnderIds(min, losses, best);
    assert Micro(entries[0].loss) == best.value;
  }

  lemma {:induction false} EntriesFirst(id: string, rest: seq<string>, losses: map<string, real>)
    requires id in losses
    ensures |EntriesOf([id] + rest, losses)| > 0 && EntriesOf([id] + rest, losses)[0] == Entry(id, losses[id])
  {
    var order := [id] + rest;
    if |rest| == 0 {
      assert order[..0] == [] && EntriesOf(order, losses) == [] + [Entry(id, losses[id])];
    } else {
      EntriesFirst(id, rest[..|rest| - 1], losses);
      assert order[..|order| - 1] == [id] + rest[..|rest| - 1];
    }
  }

  ghost predicate SameRun(min: bool, c: Champ, losses: map<string, real>, keys: set<string>) {
    forall a, b :: OrderOf(a, keys) && OrderOf(b, keys)
      ==> VisitOrder(min, c, a, losses).run == VisitOrder(min, c, b, losses).run
  }

  ghost predicate SameKept(min: bool, c: Champ, losses: map<string, real>, keys: set<string>) {
    forall a, b :: OrderOf(a, keys) && OrderOf(b, keys)
      ==> VisitOrder(min, c, a, losses).kept == VisitOrder(min, c, b, losses).kept
  }

  lemma EndWith(keys: set<string>, id: string) returns (front: seq<string>)
    requires id in keys
    ensures OrderOf(front + [id], keys)
  {
    front := SomeOrderOf(keys - {id});
    assert keys - {id} + {id} == keys;
    AppendOrders(front, [id], keys - {id}, {id});
  }

  lemma StartWith(keys: set<string>, id: string) returns (rest: seq<string>)
    requires id in keys
    ensures OrderOf([id] + rest, keys)
  {
    rest := SomeOrderOf(keys - {id});
    assert {id} + (keys - {id}) == keys;
    AppendOrders([id], rest, {id}, keys - {id});
  }

  lemma Two(s: set<string>) returns (a: string, b: string)
    requires |s| > 1
    ensures a in s && b in s && a != b
  {
    a :| a in s;
    assert |s - {a}| == |s| - 1;
    b :| b in s - {a};
  }

  lemma One(s: set<string>, a: string, b: string)
    requires |s| <= 1 && a in s && b in s
    ensures a == b
  {
    assert |s - {a}| == |s| - 1;
    assert s - {a} == {};
  }

  /** The order decides who is named exactly when two runs are under the final stored loss, or none is and that loss is
      new and more than one run rounds to it. */
  lemma SameRunExactly(min: bool, c: Champ, losses: map<string, real>, keys: set<string>, best: Option<int>)
    requires losses.Keys <= keys && Final(min, c.best, losses, best)
    ensures SameRun(min, c, losses, keys)
       <==> |UnderIds(min, losses, best)| <= 1
            && (UnderIds(min, losses, best) == {} && best != c.best ==> |OverIds(min, losses, best)| == 1)
  {
    hide Final, VisitOrder, UnderIds, OverIds, OrderOf;
    var under, over := UnderIds(min, losses, best), OverIds(min, losses, best);
    IdsAreKeys(min, losses, best);
    forall a | OrderOf(a, keys) ensures NamedIn(min, c, a, losses, best) { NamedInOrder(min, c, a, losses, keys, best); }
    if |under| > 1 {
      var x, y := Two(under);
      var a := EndWith(keys, x);
      var b := EndWith(keys, y);
      BestIs(min, c, a + [x], losses, keys, best);
      BestIs(min, c, b + [y], losses, keys, best);
      LastNamed(min, c, a, x, losses, keys);
      LastNamed(min, c, b, y, losses, keys);
    } else if under == {} && best != c.best && |over| != 1 {
      var some := SomeOrderOf(keys);
      assert NamedIn(min, c, some, losses, best) && over != {};
      var x, y := Two(over);
      var a := StartWith(keys, x);
      var b := StartWith(keys, y);
      BestIs(min, c, [x] + a, losses, keys, best);
      BestIs(min, c, [y] + b, losses, keys, best);
      FirstNamed(min, c, x, a, losses, keys);
      FirstNamed(min, c, y, b, losses, keys);
    } else {
      forall a, b | OrderOf(a, keys) && OrderOf(b, keys)
        ensures VisitOrder(min, c, a, losses).run == VisitOrder(min, c, b, losses).run
      {
        var r, q := VisitOrder(min, c, a, losses).run, VisitOrder(min, c, b, losses).run;
        if under != {} { One(under, r, q); } else if best != c.best { One(over, r, q); }
      }
    }
  }

  lemma IdsAreKeys(min: bool, losses: map<string, real>, best: Option<int>)
    ensures UnderIds(min, losses, best) <= losses.Keys && OverIds(min, losses, best) <= losses.Keys
  {
    hide Under, Micro;
  }

  lemma BestIs(min: bool, c: Champ, order: seq<string>, losses: map<string, real>, keys: set<string>, best: Option<int>)
    requires OrderOf(order, keys) && losses.Keys <= keys && Final(min, c.best, losses, best)
    ensures VisitOrder(min, c, order, losses).best == best
  {
    hide Final, VisitOrder, OrderOf;
    FinalBest(min, c, order, losses, keys);
    FinalUnique(min, c.best, losses, best, VisitOrder(min, c, order, losses).best);
  }

  ghost predicate NamedIn(min: bool, c: Champ, order: seq<string>, losses: map<string, real>, best: Option<int>) {
    var run := VisitOrder(min, c, order, losses).run;
    if UnderIds(min, losses, best) != {} then run in UnderIds(min, losses, best)
    else if best != c.best then run in OverIds(min, losses, best)
    else run == c.run
  }

  lemma NamedInOrder(min: bool, c: Champ, order: seq<string>, losses: map<string, real>, keys: set<string>, best: Option<int>)
    requires OrderOf(order, keys) && losses.Keys <= keys && Final(min, c.best, losses, best)
    ensures NamedIn(min, c, order, losses, best)
  {
    hide Final, VisitOrder, UnderIds, OverIds, OrderOf;
    BestIs(min, c, order, losses, keys, best);
    NamedFrom(min, c, order, losses, keys);
  }

  // ----- how many are kept -----

  /** How many of the visited ids are in the set. */
  function Hits(order: seq<string>, ids: set<string>): nat {
    if |order| == 0 then 0 else Hits(order[..|order| - 1], ids) + if order[|order| - 1] in ids then 1 else 0
  }

  lemma HitsStep(front: seq<string>, id: string, ids: set<string>)
    ensures Hits(front + [id], ids) == Hits(front, ids) + if id in ids then 1 else 0
  {
    assert (front + [id])[..|front|] == front;
  }

  lemma {:induction false} HitsAppend(a: seq<string>, b: seq<string>, ids: set<string>)
    ensures Hits(a + b, ids) == Hits(a, ids) + Hits(b, ids)
  {
    if |b| == 0 {
      assert a + b == a;
    } else {
      assert (a + b)[..|a + b| - 1] == a + b[..|b| - 1];
      HitsAppend(a, b[..|b| - 1], ids);
    }
  }

  lemma SetStep(front: seq<string>, id: string, ids: set<string>)
    requires id !in front
    ensures SetOf(front + [id]) == SetOf(front) + {id}
    ensures |SetOf(front + [id]) * ids| == |SetOf(front) * ids| + if id in ids then 1 else 0
  {
    assert SetOf(front + [id]) == SetOf(front) + {id};
    assert id !in SetOf(front);
    hide SetOf;
    OneMember(SetOf(front), id, ids);
  }

  lemma OneMember(s: set<string>, id: string, ids: set<string>)
    requires id !in s
    ensures |(s + {id}) * ids| == |s * ids| + if id in ids then 1 else 0
  {
    assert (s + {id}) * ids == s * ids + if id in ids then {id} else {};
  }

  lemma {:induction false} HitsDistinct(order: seq<string>, ids: set<string>)
    requires forall i, j :: 0 <= i < j < |order| ==> order[i] != order[j]
    ensures Hits(order, ids) == |SetOf(order) * ids|
  {
    if |order| == 0 {
      assert SetOf(order) * ids == {};
    } else {
      hide SetOf;
      var front, id := order[..|order| - 1], order[|order| - 1];
      assert order == front + [id] && id !in front;
      HitsDistinct(front, ids);
      SetStep(front, id, ids);
    }
  }

  lemma HitsAll(order: seq<string>, keys: set<string>, ids: set<string>)
    requires OrderOf(order, keys) && ids <= keys
    ensures Hits(order, ids) == |ids|
  {
    HitsDistinct(order, ids);
    OrderSet(order, keys);
    assert keys * ids == ids;
  }

  /** A stored loss not yet past the final one. */
  predicate Behind(min: bool, current: Option<int>, best: int) { current.Some? ==> !Ahead(min, current.value, best) }

  ghost predicate Bounded(min: bool, losses: map<string, real>, best: int) {
    forall id :: id in losses ==> !Ahead(min, Micro(losses[id]), best)
  }

  /** One visit on the way to the final stored loss: what is under it is kept, nothing passes it, and what does not beat
      an earlier stored loss is not kept later. */
  lemma VisitFacts(min: bool, start: Option<int>, d: Champ, e: Entry, best: int)
    requires Behind(min, d.best, best) && !Ahead(min, Micro(e.loss), best)
    requires (start.Some? ==> d.best.Some? && !Ahead(min, start.value, d.best.value))
    ensures var v := Visit(min, d, e);
            && Behind(min, v.best, best) && (start.Some? ==> v.best.Some? && !Ahead(min, start.value, v.best.value))
            && (Under(min, best, e.loss) ==> v == Champ(Some(Micro(e.loss)), e.id, d.kept + 1) && Micro(e.loss) == best)
            && (!IsImprovement(start, min, e.loss) ==> v == d)
            && (d.best == Some(best) && !Under(min, best, e.loss) ==> v == d)
  {
    hide Micro, Stored;
    Improving(min, best, e.loss);
    if d.best.Some? {
      Improving(min, d.best.value, e.loss);
      if Under(min, best, e.loss) { UnderWorse(min, best, d.best.value, e.loss); }
      if start.Some? && Under(min, d.best.value, e.loss) { UnderWorse(min, d.best.value, start.value, e.loss); }
    }
  }

  /** What every order keeps, and what it keeps in the special cases. */
  ghost predicate KeptFacts(min: bool, c: Champ, order: seq<string>, losses: map<string, real>, best: int) {
    var d := VisitOrder(min, c, order, losses);
    var improving := ImprovingIds(min, losses, c.best);
    var under, over := UnderIds(min, losses, Some(best)), OverIds(min, losses, Some(best));
    var hits := Hits(order, improving);
    && Behind(min, d.best, best) && (c.best.Some? ==> d.best.Some? && !Ahead(min, c.best.value, d.best.value))
    && (hits == 0 ==> d == c)
    && (improving <= under || hits <= 1 ==> d.kept == c.kept + hits)
    && (improving <= over && hits > 0 ==> d.best == Some(best) && d.kept == c.kept + 1)
    && d.kept >= c.kept + Hits(order, under)
    && (c.best == Some(best) ==> d.best == c.best && d.kept == c.kept + Hits(order, under))
    && (d.best == c.best || d.kept > c.kept)
  }

  lemma {:induction false} Kept(min: bool, c: Champ, order: seq<string>, losses: map<string, real>, best: int)
    requires Behind(min, c.best, best) && Bounded(min, losses, best)
    ensures KeptFacts(min, c, order, losses, best)
  {
    hide Micro, Stored, VisitOrder, Hits, KeptFacts;
    if |order| == 0 {
      assert order == [];
      NoneKept(min, c, losses, best);
    } else {
      var front, id := order[..|order| - 1], order[|order| - 1];
      assert order == front + [id];
      Kept(min, c, front, losses, best);
      KeptStep(min, c, front, id, losses, best);
    }
  }

  lemma NoneKept(min: bool, c: Champ, losses: map<string, real>, best: int)
    requires Behind(min, c.best, best)
    ensures KeptFacts(min, c, [], losses, best)
  {
  }

  lemma KeptStep(min: bool, c: Champ, front: seq<string>, id: string, losses: map<string, real>, best: int)
    requires Behind(min, c.best, best) && Bounded(min, losses, best) && KeptFacts(min, c, front, losses, best)
    ensures KeptFacts(min, c, front + [id], losses, best)
  {
    hide Micro, Stored, VisitOrder, Hits, Visit, UnderIds, OverIds, ImprovingIds, IsImprovement, Under;
    var d := VisitOrder(min, c, front, losses);
    VisitOrderStep(min, c, front, id, losses);
    HitsStep(front, id, ImprovingIds(min, losses, c.best));
    HitsStep(front, id, UnderIds(min, losses, Some(best)));
    IdsAre(min, losses, c.best, best, id);
    if id in losses {
      var e := Entry(id, losses[id]);
      VisitFacts(min, c.best, d, e, best);
      VisitEither(min, d, e);
    }
  }

  lemma IdsAre(min: bool, losses: map<string, real>, start: Option<int>, best: int, id: string)
    ensures id in ImprovingIds(min, losses, start) <==> id in losses && IsImprovement(start, min, losses[id])
    ensures id in UnderIds(min, losses, Some(best)) <==> id in losses && Under(min, best, losses[id])
    ensures id in OverIds(min, losses, Some(best))
       <==> id in losses && !Under(min, best, losses[id]) && Micro(losses[id]) == best
  {
  }

  lemma VisitEither(min: bool, d: Champ, e: Entry)
    ensures Visit(min, d, e)
         == if IsImprovement(d.best, min, e.loss) then Champ(Some(Micro(e.loss)), e.id, d.kept + 1) else d
  {
  }

  /** After the first run visited is kept, the rest decides. */
  lemma FirstKept(min: bool, c: Champ, id: string, rest: seq<string>, losses: map<string, real>, keys: set<string>, best: int)
    requires OrderOf([id] + rest, keys) && losses.Keys <= keys && id in ImprovingIds(min, losses, c.best)
    requires Behind(min, c.best, best) && Bounded(min, losses, best)
    ensures var d, under := VisitOrder(min, c, [id] + rest, losses), UnderIds(min, losses, Some(best));
            var others := |under| - if id in under then 1 else 0;
            && d.kept >= c.kept + 1 + others
            && (Micro(losses[id]) == best ==> d.kept == c.kept + 1 + others)
            && (d.best == Some(Micro(losses[id])) || d.kept > c.kept + 1)
  {
    hide Micro, Stored, VisitOrder, UnderIds, Hits, OrderOf;
    var under, m := UnderIds(min, losses, Some(best)), Champ(Some(Micro(losses[id])), id, c.kept + 1);
    assert [] + [id] == [id];
    NoneVisited(min, c, losses);
    VisitOrderStep(min, c, [], id, losses);
    VisitOrderAppend(min, c, [id], rest, losses);
    Kept(min, m, rest, losses, best);
    IdsAreKeys(min, losses, Some(best));
    HitsAll([id] + rest, keys, under);
    HitsAppend([id], rest, under);
    OneHit(id, under);
  }

  lemma OneHit(id: string, ids: set<string>)
    ensures Hits([id], ids) == if id in ids then 1 else 0
  {
    assert [] + [id] == [id];
    HitsStep([], id, ids);
  }

  /** In three cases every order keeps the same number. */
  lemma KeptInOrder(min: bool, c: Champ, order: seq<string>, losses: map<string, real>, keys: set<string>, best: int)
    requires OrderOf(order, keys) && losses.Keys <= keys && Behind(min, c.best, best) && Bounded(min, losses, best)
    ensures var kept, improving := VisitOrder(min, c, order, losses).kept, ImprovingIds(min, losses, c.best);
            && (|improving| <= 1 || improving <= UnderIds(min, losses, Some(best)) ==> kept == c.kept + |improving|)
            && (improving <= OverIds(min, losses, Some(best)) ==> kept == c.kept + if improving == {} then 0 else 1)
  {
    hide VisitOrder, ImprovingIds, UnderIds, OverIds, Hits, OrderOf, Behind, Bounded;
    Kept(min, c, order, losses, best);
    ImprovingAreKeys(min, losses, c.best);
    HitsAll(order, keys, ImprovingIds(min, losses, c.best));
  }

  lemma ImprovingAreKeys(min: bool, losses: map<string, real>, start: Option<int>)
    ensures ImprovingIds(min, losses, start) <= losses.Keys
  {
    hide IsImprovement;
  }

  lemma SameIds(min: bool, losses: map<string, real>, best: int)
    ensures ImprovingIds(min, losses, Some(best)) == UnderIds(min, losses, Some(best))
  {
  }

  /** Where nothing is under the final stored loss but something improved, a run rounds to it and improves. */
  lemma SomeOver(min: bool, start: Option<int>, losses: map<string, real>, best: int) returns (id: string)
    requires Final(min, start, losses, Some(best)) && UnderIds(min, losses, Some(best)) == {}
    requires ImprovingIds(min, losses, start) != {}
    ensures id in losses && id in ImprovingIds(min, losses, start) && Micro(losses[id]) == best
  {
    hide Micro, Stored;
    SameIds(min, losses, best);
    id :| id in losses && Micro(losses[id]) == best;
    if start.Some? { Improving(min, start.value, losses[id]); }
  }

  /** The order decides how many are kept exactly when two runs beat the stored loss, not all of them beat the final one
      and not all of them only round to it. */
  lemma SameKeptExactly(min: bool, c: Champ, losses: map<string, real>, keys: set<string>, best: Option<int>)
    requires losses.Keys <= keys && Final(min, c.best, losses, best)
    ensures SameKept(min, c, losses, keys)
       <==> |ImprovingIds(min, losses, c.best)| <= 1
            || ImprovingIds(min, losses, c.best) <= UnderIds(min, losses, best)
            || ImprovingIds(min, losses, c.best) <= OverIds(min, losses, best)
  {
    hide VisitOrder, UnderIds, OverIds, ImprovingIds, OrderOf, SameKept;
    var improving := ImprovingIds(min, losses, c.best);
    if best.None? {
      NoLosses(min, c, losses, keys);
    } else {
      var under, over := UnderIds(min, losses, best), OverIds(min, losses, best);
      if |improving| <= 1 || improving <= under || improving <= over {
        KeptTheSame(min, c, losses, keys, best.value);
      } else {
        var x, y := KeptApart(min, c, losses, keys, best.value);
        Differ(min, c, losses, keys, x, y);
      }
    }
  }

  lemma NoLosses(min: bool, c: Champ, losses: map<string, real>, keys: set<string>)
    requires losses == map[]
    ensures ImprovingIds(min, losses, c.best) == {} && SameKept(min, c, losses, keys)
  {
    forall order | OrderOf(order, keys) ensures VisitOrder(min, c, order, losses) == c { NothingVisited(min, c, order, losses); }
  }

  lemma {:induction false} NothingVisited(min: bool, c: Champ, order: seq<string>, losses: map<string, real>)
    requires losses == map[]
    ensures VisitOrder(min, c, order, losses) == c
  {
    if |order| == 0 {
      NoneVisited(min, c, losses);
    } else {
      var front, id := order[..|order| - 1], order[|order| - 1];
      assert order == front + [id];
      NothingVisited(min, c, front, losses);
      VisitOrderStep(min, c, front, id, losses);
    }
  }

  lemma KeptTheSame(min: bool, c: Champ, losses: map<string, real>, keys: set<string>, best: int)
    requires losses.Keys <= keys && Behind(min, c.best, best) && Bounded(min, losses, best)
    requires var improving := ImprovingIds(min, losses, c.best);
             |improving| <= 1 || improving <= UnderIds(min, losses, Some(best)) || improving <= OverIds(min, losses, Some(best))
    ensures SameKept(min, c, losses, keys)
  {
    hide VisitOrder, UnderIds, OverIds, ImprovingIds, OrderOf, Behind, Bounded;
    forall a, b | OrderOf(a, keys) && OrderOf(b, keys)
      ensures VisitOrder(min, c, a, losses).kept == VisitOrder(min, c, b, losses).kept
    {
      KeptInOrder(min, c, a, losses, keys, best);
      KeptInOrder(min, c, b, losses, keys, best);
    }
  }

  lemma Differ(min: bool, c: Champ, losses: map<string, real>, keys: set<string>, a: seq<string>, b: seq<string>)
    requires OrderOf(a, keys) && OrderOf(b, keys)
    requires VisitOrder(min, c, a, losses).kept != VisitOrder(min, c, b, losses).kept
    ensures !SameKept(min, c, losses, keys)
  {
    hide VisitOrder, OrderOf;
  }

  /** Otherwise starting with a best run keeps fewer than starting with one that only improves. */
  lemma KeptApart(min: bool, c: Champ, losses: map<string, real>, keys: set<string>, best: int)
    returns (a: seq<string>, b: seq<string>)
    requires losses.Keys <= keys && Final(min, c.best, losses, Some(best))
    requires var improving := ImprovingIds(min, losses, c.best);
             !(improving <= UnderIds(min, losses, Some(best))) && !(improving <= OverIds(min, losses, Some(best)))
    ensures OrderOf(a, keys) && OrderOf(b, keys)
    ensures VisitOrder(min, c, a, losses).kept < VisitOrder(min, c, b, losses).kept
  {
    hide VisitOrder, UnderIds, OverIds, ImprovingIds, OrderOf, Final;
    var improving := ImprovingIds(min, losses, c.best);
    var under, over := UnderIds(min, losses, Some(best)), OverIds(min, losses, Some(best));
    FinalBounds(min, c.best, losses, best);
    ImprovingAreKeys(min, losses, c.best);
    var first, other;
    if under != {} {
      first := SomeUnder(min, c.best, losses, best);
      other :| other in improving && other !in under;
    } else {
      first := SomeOver(min, c.best, losses, best);
      other :| other in improving && other !in over;
      NotOver(min, losses, best, other);
    }
    var rest := StartWith(keys, first);
    var more := StartWith(keys, other);
    a, b := [first] + rest, [other] + more;
    FirstKept(min, c, first, rest, losses, keys, best);
    FirstKept(min, c, other, more, losses, keys, best);
    BestIs(min, c, b, losses, keys, Some(best));
  }

  lemma FinalBounds(min: bool, start: Option<int>, losses: map<string, real>, best: int)
    requires Final(min, start, losses, Some(best))
    ensures Behind(min, start, best) && Bounded(min, losses, best)
  {
    hide Micro;
  }

  lemma SomeUnder(min: bool, start: Option<int>, losses: map<string, real>, best: int) returns (id: string)
    requires Behind(min, start, best) && Bounded(min, losses, best) && UnderIds(min, losses, Some(best)) != {}
    ensures id in losses && id in UnderIds(min, losses, Some(best)) && id in ImprovingIds(min, losses, start)
    ensures Micro(losses[id]) == best
  {
    hide Micro, Stored;
    id :| id in UnderIds(min, losses, Some(best));
    Improving(min, best, losses[id]);
    if start.Some? { UnderWorse(min, best, start.value, losses[id]); }
  }

  lemma NotOver(min: bool, losses: map<string, real>, best: int, id: string)
    requires id in losses && id !in OverIds(min, losses, Some(best)) && id !in UnderIds(min, losses, Some(best))
    ensures Micro(losses[id]) != best
  {
    hide Micro, Under;
  }

  // ----- the drain -----

  /** The losses a drain is about to record. */
  function NewLosses(p: Project, w: World, reports: map<string, Report>, now: int): map<string, real> {
    map id | id in w.st.open && OutcomeOf(p, w.st.startedAt, id, reports, now).Succeeded?
      :: OutcomeOf(p, w.st.startedAt, id, reports, now).loss
  }

  lemma DrainOneVisits(p: Project, st: Status, id: string, loss: Option<real>)
    ensures ChampOf(Drained(p, st, id, loss))
         == if loss.Some? then Visit(Minimizes(p.direction), ChampOf(st), Entry(id, loss.value)) else ChampOf(st)
  {
    hide Complete, Micro;
  }

  lemma {:induction false} DrainVisits(p: Project, w: World, order: seq<string>, reports: map<string, Report>, now: int)
    requires forall id :: id in order ==> id in w.st.open
    requires forall i, j :: 0 <= i < j < |order| ==> order[i] != order[j]
    ensures ChampOf(DrainAll(p, w, order, reports, now).st)
         == VisitOrder(Minimizes(p.direction), ChampOf(w.st), order, NewLosses(p, w, reports, now))
  {
    hide OutcomeOf, Drained, VisitOrder, Visit, NewLosses, ChampOf;
    var min, losses := Minimizes(p.direction), NewLosses(p, w, reports, now);
    if |order| == 0 {
      NoneVisited(min, ChampOf(w.st), losses);
    } else {
      var front, id := order[..|order| - 1], order[|order| - 1];
      assert order == front + [id];
      DrainVisits(p, w, front, reports, now);
      VisitOrderStep(min, ChampOf(w.st), front, id, losses);
      Clocks(p, w, front, reports, now, id);
      NewLossesOf(p, w, id, reports, now);
      var m := DrainAll(p, w, front, reports, now);
      match OutcomeOf(p, m.st.startedAt, id, reports, now)
      case StillOpen =>
      case Failed => DrainOneVisits(p, m.st, id, None);
      case Succeeded(x) => DrainOneVisits(p, m.st, id, Some(x));
    }
  }

  lemma NewLossesOf(p: Project, w: World, id: string, reports: map<string, Report>, now: int)
    ensures var losses, o := NewLosses(p, w, reports, now), OutcomeOf(p, w.st.startedAt, id, reports, now);
            (id in losses <==> id in w.st.open && o.Succeeded?) && (id in losses ==> losses[id] == o.loss)
  {
    hide OutcomeOf;
  }

  /** The status after a drain that visits the open runs in some order. */
  function DrainedIn(p: Project, w: World, order: seq<string>, reports: map<string, Report>, now: int): Status {
    DrainAll(p, w, order, reports, now).st
  }

  ghost predicate SameBestRun(p: Project, w: World, reports: map<string, Report>, now: int) {
    forall a, b :: OrderOf(a, w.st.open.Keys) && OrderOf(b, w.st.open.Keys)
      ==> DrainedIn(p, w, a, reports, now).bestRun == DrainedIn(p, w, b, reports, now).bestRun
  }

  ghost predicate SameKeptCount(p: Project, w: World, reports: map<string, Report>, now: int) {
    forall a, b :: OrderOf(a, w.st.open.Keys) && OrderOf(b, w.st.open.Keys)
      ==> DrainedIn(p, w, a, reports, now).experimentsKept == DrainedIn(p, w, b, reports, now).experimentsKept
  }

  lemma OrderVisits(p: Project, w: World, order: seq<string>, reports: map<string, Report>, now: int)
    requires OrderOf(order, w.st.open.Keys)
    ensures ChampOf(DrainedIn(p, w, order, reports, now))
         == VisitOrder(Minimizes(p.direction), ChampOf(w.st), order, NewLosses(p, w, reports, now))
    ensures NewLosses(p, w, reports, now).Keys <= w.st.open.Keys
  {
    hide VisitOrder, NewLosses, ChampOf;
    OrderSet(order, w.st.open.Keys);
    DrainVisits(p, w, order, reports, now);
    forall id | id in NewLosses(p, w, reports, now) ensures id in w.st.open { NewLossesOf(p, w, id, reports, now); }
  }

  /** Every visiting order ends at one stored loss. */
  lemma FinalLoss(p: Project, w: World, reports: map<string, Report>, now: int) returns (best: Option<int>)
    ensures Final(Minimizes(p.direction), w.st.best, NewLosses(p, w, reports, now), best)
    ensures forall a :: OrderOf(a, w.st.open.Keys) ==> DrainedIn(p, w, a, reports, now).best == best
    ensures NewLosses(p, w, reports, now).Keys <= w.st.open.Keys
  {
    hide VisitOrder, NewLosses, DrainedIn, OrderOf, Final;
    var min, losses, keys := Minimizes(p.direction), NewLosses(p, w, reports, now), w.st.open.Keys;
    var some := SomeOrderOf(keys);
    OrderVisits(p, w, some, reports, now);
    FinalBest(min, ChampOf(w.st), some, losses, keys);
    best := DrainedIn(p, w, some, reports, now).best;
    forall a | OrderOf(a, keys) ensures DrainedIn(p, w, a, reports, now).best == best {
      OrderVisits(p, w, a, reports, now);
      BestIs(min, ChampOf(w.st), a, losses, keys, best);
    }
  }

  /** All visiting orders name the same champion run exactly when at most one finishing run beats the new stored loss and,
      if none does and that loss is new, exactly one rounds to it. */
  lemma BestRunDependsOnOrder(p: Project, w: World, reports: map<string, Report>, now: int) returns (best: Option<int>)
    ensures Final(Minimizes(p.direction), w.st.best, NewLosses(p, w, reports, now), best)
    ensures var min, losses := Minimizes(p.direction), NewLosses(p, w, reports, now);
            SameBestRun(p, w, reports, now)
            <==> (|UnderIds(min, losses, best)| <= 1
                  && (UnderIds(min, losses, best) == {} && best != w.st.best ==> |OverIds(min, losses, best)| == 1))
  {
    hide VisitOrder, NewLosses, DrainedIn, OrderOf, Final, UnderIds, OverIds;
    var min, losses, c := Minimizes(p.direction), NewLosses(p, w, reports, now), ChampOf(w.st);
    best := FinalLoss(p, w, reports, now);
    forall a | OrderOf(a, w.st.open.Keys)
      ensures DrainedIn(p, w, a, reports, now).bestRun == VisitOrder(min, c, a, losses).run
    {
      OrderVisits(p, w, a, reports, now);
    }
    SameRunExactly(min, c, losses, w.st.open.Keys, best);
    assert SameBestRun(p, w, reports, now) <==> SameRun(min, c, losses, w.st.open.Keys);
  }

  /** All visiting orders count the same runs as kept exactly when at most one finishing run beats the stored loss, or all
      that do beat the new one too, or all that do only round to it. */
  lemma KeptDependsOnOrder(p: Project, w: World, reports: map<string, Report>, now: int) returns (best: Option<int>)
    ensures Final(Minimizes(p.direction), w.st.best, NewLosses(p, w, reports, now), best)
    ensures var min, losses := Minimizes(p.direction), NewLosses(p, w, reports, now);
            SameKeptCount(p, w, reports, now)
            <==> (|ImprovingIds(min, losses, w.st.best)| <= 1
                  || ImprovingIds(min, losses, w.st.best) <= UnderIds(min, losses, best)
                  || ImprovingIds(min, losses, w.st.best) <= OverIds(min, losses, best))
  {
    hide VisitOrder, NewLosses, DrainedIn, OrderOf, Final, UnderIds, OverIds, ImprovingIds;
    var min, losses, c := Minimizes(p.direction), NewLosses(p, w, reports, now), ChampOf(w.st);
    best := FinalLoss(p, w, reports, now);
    forall a | OrderOf(a, w.st.open.Keys)
      ensures DrainedIn(p, w, a, reports, now).experimentsKept == VisitOrder(min, c, a, losses).kept
    {
      OrderVisits(p, w, a, reports, now);
    }
    SameKeptExactly(min, c, losses, w.st.open.Keys, best);
    assert SameKeptCount(p, w, reports, now) <==> SameKept(min, c, losses, w.st.open.Keys);
  }
}
