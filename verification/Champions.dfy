/** Which run the status names as the champion and how many runs it counts as kept, and what both owe to the rounding of
    the stored loss and to the order in which finished runs are visited. */
module Champions {
  import opened Values
  import opened Losses
  import opened AutoResearch
  import opened DrainOrders
  import opened RunIds

  /** A run drained with a loss. */
  datatype Entry = Entry(id: string, loss: real)

  datatype Champ = Champ(best: Option<int>, run: string, kept: nat)

  const NOBODY := Champ(None, "", 0)

  function Visit(min: bool, c: Champ, e: Entry): Champ {
    if IsImprovement(c.best, min, e.loss) then Champ(Some(Micro(e.loss)), e.id, c.kept + 1) else c
  }

  function VisitAll(min: bool, c: Champ, entries: seq<Entry>): Champ {
    if |entries| == 0 then c else Visit(min, VisitAll(min, c, entries[..|entries| - 1]), entries[|entries| - 1])
  }

  // ----- stored losses -----

  predicate Ahead(min: bool, a: int, b: int) { if min then a < b else a > b }

  /** A run that beats the stored loss, which its own rounding may equal. */
  predicate Under(min: bool, best: int, x: real) { Beats(min, x, Stored(best)) }

  lemma StoredMonotone(a: int, b: int)
    ensures a <= b <==> Stored(a) <= Stored(b)
  {
    assert Stored(a) * 1000000.0 == a as real && Stored(b) * 1000000.0 == b as real;
  }

  /** What is kept is not behind the stored loss; what is not is not ahead of it, and what is ahead is kept. */
  lemma Improving(min: bool, best: int, x: real)
    ensures Under(min, best, x) ==> !Ahead(min, best, Micro(x))
    ensures !Under(min, best, x) ==> !Ahead(min, Micro(x), best)
  {
    MicroStored(best);
    if x <= Stored(best) { MicroMonotone(x, Stored(best)); }
    if Stored(best) <= x { MicroMonotone(Stored(best), x); }
  }

  /** What beats a better stored loss beats a worse one. */
  lemma UnderWorse(min: bool, best: int, worse: int, x: real)
    requires !Ahead(min, worse, best) && Under(min, best, x)
    ensures Under(min, worse, x)
  {
    StoredMonotone(best, worse);
    StoredMonotone(worse, best);
  }

  /** Visiting only ever moves the stored loss forward, to the best there is. */
  ghost predicate Reached(min: bool, start: Option<int>, entries: seq<Entry>, best: Option<int>) {
    && (best.None? ==> start.None? && entries == [])
    && (best.Some? ==>
          && (start.Some? ==> !Ahead(min, start.value, best.value))
          && (forall i :: 0 <= i < |entries| ==> !Ahead(min, Micro(entries[i].loss), best.value))
          && (start == best || exists i :: 0 <= i < |entries| && Micro(entries[i].loss) == best.value))
  }

  lemma {:induction false} VisitReaches(min: bool, c: Champ, entries: seq<Entry>)
    ensures Reached(min, c.best, entries, VisitAll(min, c, entries).best)
  {
    hide Micro, Under;
    if |entries| > 0 {
      var front, e := entries[..|entries| - 1], entries[|entries| - 1];
      VisitReaches(min, c, front);
      var d := VisitAll(min, c, front);
      ReachedStep(min, c.best, front, d, e);
      assert entries == front + [e];
    }
  }

  lemma ReachedStep(min: bool, start: Option<int>, front: seq<Entry>, d: Champ, e: Entry)
    requires Reached(min, start, front, d.best)
    ensures Reached(min, start, front + [e], Visit(min, d, e).best)
  {
    hide Micro, Stored;
    var all := front + [e];
    assert all[|front|] == e && forall i :: 0 <= i < |front| ==> all[i] == front[i];
    if d.best.Some? { Improving(min, d.best.value, e.loss); }
    if d.best.Some? && d.best != start && !Under(min, d.best.value, e.loss) {
      var i :| 0 <= i < |front| && Micro(front[i].loss) == d.best.value;
      assert Micro(all[i].loss) == d.best.value;
    }
  }

  /** The entry the champion is taken from: the last of those under the stored loss, or where there is none the first that
      rounds to it. */
  ghost predicate Chosen(min: bool, start: Option<int>, entries: seq<Entry>, best: int, i: int) {
    && 0 <= i < |entries| && Micro(entries[i].loss) == best
    && if Under(min, best, entries[i].loss)
       then forall j :: i < j < |entries| ==> !Under(min, best, entries[j].loss)
       else start != Some(best)
            && (forall j :: 0 <= j < |entries| ==> !Under(min, best, entries[j].loss))
            && (forall j :: 0 <= j < i ==> Micro(entries[j].loss) != best)
  }

  /** The champion's run is that of the chosen entry; where the stored loss stays and nothing is under it, all stays. */
  lemma {:induction false} ChampionIs(min: bool, c: Champ, entries: seq<Entry>) returns (i: int)
    ensures i < |entries|
    ensures var d := VisitAll(min, c, entries);
            if i < 0 then d.run == c.run && d.best == c.best
                          && forall j :: 0 <= j < |entries| ==> d.best.Some? && !Under(min, d.best.value, entries[j].loss)
            else d.best.Some? && Chosen(min, c.best, entries, d.best.value, i) && d.run == entries[i].id
  {
    hide Micro, Stored, Chosen;
    i := -1;
    if |entries| > 0 {
      var front, e := entries[..|entries| - 1], entries[|entries| - 1];
      assert entries == front + [e];
      i := ChampionIs(min, c, front);
      var d := VisitAll(min, c, front);
      VisitReaches(min, c, front);
      if d.best.None? || Beats(min, e.loss, Stored(d.best.value)) {
        i := |front|;
        TakesOver(min, c.best, front, d.best, e);
      } else if i >= 0 {
        KeepsChosen(min, c.best, front, d.best.value, e, i);
      }
    }
  }

  lemma TakesOver(min: bool, start: Option<int>, front: seq<Entry>, best: Option<int>, e: Entry)
    requires Reached(min, start, front, best) && (best.Some? ==> Under(min, best.value, e.loss))
    ensures Chosen(min, start, front + [e], Micro(e.loss), |front|)
  {
    hide Micro, Stored;
    var all, b := front + [e], Micro(e.loss);
    if best.Some? { Improving(min, best.value, e.loss); }
    forall j | 0 <= j < |front| ensures !Under(min, b, e.loss) ==> !Under(min, b, all[j].loss) && Micro(all[j].loss) != b {
      assert all[j] == front[j];
      Improving(min, b, front[j].loss);
      if best == Some(b) {
        assert Under(min, b, e.loss);
      }
    }
    if start == Some(b) { assert best == start; }
  }

  lemma KeepsChosen(min: bool, start: Option<int>, front: seq<Entry>, best: int, e: Entry, i: int)
    requires Chosen(min, start, front, best, i) && !Beats(min, e.loss, Stored(best))
    ensures Chosen(min, start, front + [e], best, i)
  {
    hide Micro, Stored;
    var all := front + [e];
    assert all[|front|] == e && forall j :: 0 <= j < |front| ==> all[j] == front[j];
  }

  // ----- over a whole history -----

  /** The measured drains of a history, in order. */
  function Entries(log: seq<Event>): seq<Entry> {
    if |log| == 0 then [] else
    Entries(log[..|log| - 1]) + match log[|log| - 1] case Drain(id, Some(x)) => [Entry(id, x)] case _ => []
  }

  function ChampOf(st: Status): Champ { Champ(st.best, st.bestRun, st.experimentsKept) }

  /** The status names the champion its history makes, and counts the runs it kept. */
  ghost predicate NamesChampion(p: Project, w: World) {
    ChampOf(w.st) == VisitAll(Minimizes(p.direction), NOBODY, Entries(w.log))
  }

  lemma EntriesStep(log: seq<Event>, e: Event)
    ensures Entries(log + [e]) == Entries(log) + match e case Drain(id, Some(x)) => [Entry(id, x)] case _ => []
  {
    Snoc(log, e);
  }

  lemma VisitSnoc(min: bool, c: Champ, entries: seq<Entry>, e: Entry)
    ensures VisitAll(min, c, entries + [e]) == Visit(min, VisitAll(min, c, entries), e)
  {
    assert (entries + [e])[..|entries|] == entries;
  }

  lemma DrainNames(p: Project, w: World, id: string, loss: Option<real>)
    requires NamesChampion(p, w)
    ensures NamesChampion(p, World(w.log + [Drain(id, loss)], Drained(p, w.st, id, loss)))
  {
    hide Complete, Micro, Entries, VisitAll;
    EntriesStep(w.log, Drain(id, loss));
    if loss.Some? {
      VisitSnoc(Minimizes(p.direction), NOBODY, Entries(w.log), Entry(id, loss.value));
    } else {
      assert Entries(w.log) + [] == Entries(w.log);
    }
  }

  lemma OtherNames(p: Project, w: World, e: Event, st: Status)
    requires NamesChampion(p, w) && !e.Drain? && ChampOf(st) == ChampOf(w.st)
    ensures NamesChampion(p, World(w.log + [e], st))
  {
    hide Entries, VisitAll;
    EntriesStep(w.log, e);
    assert Entries(w.log) + [] == Entries(w.log);
  }

  lemma {:induction false} DrainsName(p: Project, w: World, order: seq<string>, reports: map<string, Report>, now: int)
    requires NamesChampion(p, w)
    ensures NamesChampion(p, DrainAll(p, w, order, reports, now))
  {
    hide NamesChampion, Drained, OutcomeOf;
    if |order| > 0 {
      var m, id := DrainAll(p, w, order[..|order| - 1], reports, now), order[|order| - 1];
      DrainsName(p, w, order[..|order| - 1], reports, now);
      match OutcomeOf(p, m.st.startedAt, id, reports, now)
      case StillOpen =>
      case Failed => DrainNames(p, m, id, None);
      case Succeeded(x) => DrainNames(p, m, id, Some(x));
    }
  }

  lemma {:induction false} CullsName(p: Project, w: World, order: seq<string>, reports: map<string, Report>, version: string)
    requires NamesChampion(p, w)
    ensures NamesChampion(p, CullAll(p, w, order, reports, version))
  {
    hide NamesChampion, Stale;
    if |order| > 0 {
      var m, id := CullAll(p, w, order[..|order| - 1], reports, version), order[|order| - 1];
      CullsName(p, w, order[..|order| - 1], reports, version);
      if Stale(id, reports, version) { OtherNames(p, m, Cull(id), Culled(p, m.st, id)); }
    }
  }

  lemma NextNames(p: Project, w: World, step: Step)
    requires NamesChampion(p, w)
    ensures NamesChampion(p, Next(p, w, step))
  {
    hide NamesChampion, DrainAll, CullAll, RunId;
    match step
    case HumanReset => OtherNames(p, w, Reset, w.st.(failures := 0));
    case Reconcile(x, drainOrder, cullOrder) =>
      DrainsName(p, w, drainOrder, x.drainReports, x.now);
      if x.version.Some? {
        CullsName(p, DrainAll(p, w, drainOrder, x.drainReports, x.now), cullOrder, x.cullReports, x.version.value);
      }
      var m := Observed(p, w, x, drainOrder, cullOrder);
      if x.dspRun.Some? {
        OtherNames(p, m, Submit(RunId(p.name, m.st.round + 1)), Submitted(p, m.st, x.dspRun.value, x.now));
      }
  }

  /** In every state a run reaches: the named champion is the last measured run under the stored loss, or where there is
      none the first that rounds to it. */
  lemma {:induction false} EveryRunNames(p: Project, w: World, steps: seq<Step>)
    requires NamesChampion(p, w)
    ensures NamesChampion(p, After(p, w, steps))
    decreases steps
  {
    hide NamesChampion, Next;
    if |steps| > 0 {
      NextNames(p, w, steps[0]);
      EveryRunNames(p, Next(p, w, steps[0]), steps[1..]);
    }
  }

  lemma EveryChampion(p: Project, steps: seq<Step>) returns (i: int)
    ensures var w := After(p, World([], FRESH), steps);
            var entries, min := Entries(w.log), Minimizes(p.direction);
            if entries == [] then w.st.best.None? && w.st.bestRun == ""
            else w.st.best.Some? && Chosen(min, None, entries, w.st.best.value, i) && w.st.bestRun == entries[i].id
  {
    hide After, Chosen, VisitAll, Micro;
    FreshNames(p);
    EveryRunNames(p, World([], FRESH), steps);
    var w := After(p, World([], FRESH), steps);
    i := ChampionIs(Minimizes(p.direction), NOBODY, Entries(w.log));
    VisitReaches(Minimizes(p.direction), NOBODY, Entries(w.log));
  }

  lemma FreshNames(p: Project)
    ensures NamesChampion(p, World([], FRESH))
  {
  }

  /** Only a near tie beats the named champion: an earlier run under the stored loss too, or where none is under, a later
      run that rounds to it. */
  lemma OnlyNearTiesBeat(min: bool, start: Option<int>, entries: seq<Entry>, best: int, i: int, j: int)
    requires Chosen(min, start, entries, best, i) && Reached(min, start, entries, Some(best))
    requires 0 <= j < |entries| && Beats(min, entries[j].loss, entries[i].loss)
    ensures Micro(entries[j].loss) == best
    ensures if Under(min, best, entries[i].loss) then j < i && Under(min, best, entries[j].loss) else j > i
  {
    hide Stored;
    BetterIsNear(min, best, entries[j].loss, entries[i].loss);
  }

  lemma BetterIsNear(min: bool, best: int, x: real, y: real)
    requires Beats(min, x, y) && Micro(y) == best && !Ahead(min, Micro(x), best)
    ensures Micro(x) == best && (Under(min, best, y) ==> Under(min, best, x))
  {
    if x <= y { MicroMonotone(x, y); } else { MicroMonotone(y, x); }
    hide Micro;
  }

  // ----- naming a true champion -----

  /** The loss of the named run. */
  function NamedLoss(min: bool, entries: seq<Entry>): Option<real> {
    if |entries| == 0 then None
    else
      var front, x := entries[..|entries| - 1], entries[|entries| - 1].loss;
      if IsImprovement(VisitAll(min, NOBODY, front).best, min, x) then Some(x) else NamedLoss(min, front)
  }

  /** No run measured so far beats the named one. */
  ghost predicate NamesTrue(min: bool, entries: seq<Entry>) {
    forall e :: e in entries ==> NamedLoss(min, entries).Some? && !Beats(min, e.loss, NamedLoss(min, entries).value)
  }

  /** A loss that the rounding puts on the wrong side of the named one. */
  predicate Between(min: bool, x: real, named: real) {
    var stored := Stored(Micro(named));
    (Beats(min, named, x) && Beats(min, x, stored)) || (Beats(min, x, named) && !Beats(min, x, stored))
  }

  lemma {:induction false} NamedIsStored(min: bool, entries: seq<Entry>)
    ensures var best, named := VisitAll(min, NOBODY, entries).best, NamedLoss(min, entries);
            && (best.Some? <==> named.Some?) && (named.Some? ==> best == Some(Micro(named.value)))
            && (named.Some? ==> Entry(VisitAll(min, NOBODY, entries).run, named.value) in entries)
            && (entries != [] ==> named.Some?)
  {
    hide Micro, Stored;
    if |entries| > 0 {
      var front, e := entries[..|entries| - 1], entries[|entries| - 1];
      assert entries == front + [e];
      NamedIsStored(min, front);
    }
  }

  lemma NamedStep(min: bool, front: seq<Entry>, e: Entry)
    ensures NamedLoss(min, front + [e])
         == var named := NamedLoss(min, front);
            if named.None? || Beats(min, e.loss, Stored(Micro(named.value))) then Some(e.loss) else named
  {
    hide Micro, Stored;
    NamedIsStored(min, front);
    assert (front + [e])[..|front|] == front;
  }

  predicate Slips(min: bool, front: seq<Entry>, x: real) {
    var named := NamedLoss(min, front);
    named.Some? && Between(min, x, named.value)
  }

  lemma NamesTrueStep(min: bool, front: seq<Entry>, e: Entry)
    requires NamesTrue(min, front)
    ensures NamesTrue(min, front + [e]) <==> !Slips(min, front, e.loss)
  {
    hide Micro, Stored, NamedLoss, VisitAll;
    NamedIsStored(min, front);
    NamedStep(min, front, e);
    var all := front + [e];
    assert e in all && forall x :: x in all <==> x in front || x == e;
    if Slips(min, front, e.loss) {
      assert Entry(VisitAll(min, NOBODY, front).run, NamedLoss(min, front).value) in all;
    }
  }

  /** After every measurement the named champion is a true one exactly when no measured loss fell between the loss named
      before it and the rounding of that loss. */
  lemma NamesTrueExactly(min: bool, entries: seq<Entry>)
    ensures (forall k :: 0 <= k <= |entries| ==> NamesTrue(min, entries[..k]))
       <==> forall k :: 0 <= k < |entries| ==> !Slips(min, entries[..k], entries[k].loss)
  {
    hide NamesTrue, Slips;
    if forall k :: 0 <= k <= |entries| ==> NamesTrue(min, entries[..k]) {
      forall k | 0 <= k < |entries| ensures !Slips(min, entries[..k], entries[k].loss) {
        assert entries[..k + 1] == entries[..k] + [entries[k]];
        NamesTrueStep(min, entries[..k], entries[k]);
      }
    } else if forall k :: 0 <= k < |entries| ==> !Slips(min, entries[..k], entries[k].loss) {
      TrueUpTo(min, entries, |entries|);
    }
  }

  lemma {:induction false} TrueUpTo(min: bool, entries: seq<Entry>, n: nat)
    requires n <= |entries| && forall k :: 0 <= k < |entries| ==> !Slips(min, entries[..k], entries[k].loss)
    ensures forall k :: 0 <= k <= n ==> NamesTrue(min, entries[..k])
  {
    hide Slips;
    if n == 0 {
      assert entries[..0] == [];
    } else {
      TrueUpTo(min, entries, n - 1);
      assert entries[..n] == entries[..n - 1] + [entries[n - 1]];
      NamesTrueStep(min, entries[..n - 1], entries[n - 1]);
    }
  }

  /** Two runs suffice: of 0.4999996 and then 0.4999999, both stored as 0.500000, the worse is named. */
  lemma WorseRunNamed(a: string, b: string)
    ensures VisitAll(true, NOBODY, [Entry(a, 0.4999996), Entry(b, 0.4999999)]) == Champ(Some(500000), b, 2)
  {
    var x, y := Entry(a, 0.4999996), Entry(b, 0.4999999);
    assert Micro(x.loss) == 500000 && Micro(y.loss) == 500000 && Stored(500000) == 0.5;
    assert [x, y] == [x] + [y] && [x] == [] + [x];
    VisitSnoc(true, NOBODY, [x], y);
    VisitSnoc(true, NOBODY, [], x);
  }
}
