/** What a drain's result owes to the order in which the open runs happen to be visited. */
module DrainOrders {
  import opened Values
  import opened Losses
  import opened AutoResearch

  function Done(p: Project, startedAt: map<string, int>, ids: set<string>, reports: map<string, Report>, now: int): set<string> {
    set id | id in ids && !OutcomeOf(p, startedAt, id, reports, now).StillOpen?
  }

  predicate Reports(p: Project, startedAt: map<string, int>, id: string, reports: map<string, Report>, now: int, x: real) {
    OutcomeOf(p, startedAt, id, reports, now) == Succeeded(x)
  }

  function SetOf(order: seq<string>): set<string> { set id | id in order }

  /** What happens to one run depends on that run's own clock only. */
  lemma {:induction false} Clocks(p: Project, w: World, order: seq<string>, reports: map<string, Report>, now: int, id: string)
    requires id !in order
    ensures var m := DrainAll(p, w, order, reports, now);
            OutcomeOf(p, m.st.startedAt, id, reports, now) == OutcomeOf(p, w.st.startedAt, id, reports, now)
  {
    hide Complete, IsImprovement, Micro;
    if |order| > 0 {
      assert order == order[..|order| - 1] + [order[|order| - 1]];
      Clocks(p, w, order[..|order| - 1], reports, now, id);
    }
  }

  /** The runs a drain finishes, one more run at a time. */
  lemma DoneStep(p: Project, startedAt: map<string, int>, front: seq<string>, id: string, reports: map<string, Report>, now: int)
    requires id !in front
    ensures var more := if OutcomeOf(p, startedAt, id, reports, now).StillOpen? then {} else {id};
            && Done(p, startedAt, SetOf(front + [id]), reports, now) == Done(p, startedAt, SetOf(front), reports, now) + more
            && id !in Done(p, startedAt, SetOf(front), reports, now)
  {
    hide OutcomeOf;
  }

  /** Nothing but the finished runs leaves the status, and each is counted once. */
  ghost predicate Finished(before: Status, after: Status, done: set<string>) {
    && after.open == before.open - done
    && after.startedAt == before.startedAt - done
    && after.experimentsRun == before.experimentsRun + |done|
  }

  lemma FinishOne(p: Project, before: Status, after: Status, done: set<string>, id: string, loss: Option<real>)
    requires Finished(before, after, done) && id !in done
    ensures Finished(before, Drained(p, after, id, loss), done + {id})
  {
    hide Complete, IsImprovement, Micro;
    assert before.open - done - {id} == before.open - (done + {id});
    assert before.startedAt - done - {id} == before.startedAt - (done + {id});
  }

  lemma {:induction false} DrainedRuns(p: Project, w: World, order: seq<string>, reports: map<string, Report>, now: int)
    requires forall i, j :: 0 <= i < j < |order| ==> order[i] != order[j]
    ensures Finished(w.st, DrainAll(p, w, order, reports, now).st, Done(p, w.st.startedAt, SetOf(order), reports, now))
  {
    hide Drained, OutcomeOf, Finished, Done, SetOf;
    if |order| > 0 {
      var front, id := order[..|order| - 1], order[|order| - 1];
      assert order == front + [id];
      DrainedRuns(p, w, front, reports, now);
      Clocks(p, w, front, reports, now, id);
      DoneStep(p, w.st.startedAt, front, id, reports, now);
      var m := DrainAll(p, w, front, reports, now);
      var done := Done(p, w.st.startedAt, SetOf(front), reports, now);
      match OutcomeOf(p, m.st.startedAt, id, reports, now)
      case StillOpen => assert done + {} == done;
      case Failed => FinishOne(p, w.st, m.st, done, id, None);
      case Succeeded(y) => FinishOne(p, w.st, m.st, done, id, Some(y));
    } else {
      NothingDone(p, w.st, reports, now);
    }
  }

  lemma NothingDone(p: Project, st: Status, reports: map<string, Report>, now: int)
    ensures Finished(st, st, Done(p, st.startedAt, SetOf([]), reports, now))
  {
    hide OutcomeOf;
    assert Done(p, st.startedAt, SetOf([]), reports, now) == {};
  }

  /** What a drain writes into the history: of every run visited that is over, its end, once and as it ended. */
  ghost predicate EndsLogged(p: Project, startedAt: map<string, int>, ids: set<string>, reports: map<string, Report>, now: int,
      before: seq<Event>, after: seq<Event>)
  {
    && before <= after
    && (forall i :: |before| <= i < |after| ==>
          after[i].Drain? && after[i].id in ids && Ends(p, startedAt, after[i].id, reports, now, after[i].loss))
    && (forall id, loss :: id in ids && Ends(p, startedAt, id, reports, now, loss) ==> Drain(id, loss) in after[|before|..])
    && (forall i, j :: |before| <= i < j < |after| ==> after[i] != after[j])
  }

  lemma {:induction false} DrainedEvents(p: Project, w: World, order: seq<string>, reports: map<string, Report>, now: int)
    requires forall i, j :: 0 <= i < j < |order| ==> order[i] != order[j]
    ensures EndsLogged(p, w.st.startedAt, SetOf(order), reports, now, w.log, DrainAll(p, w, order, reports, now).log)
  {
    hide Drained, OutcomeOf, EndsLogged, Ends;
    if |order| == 0 {
      NothingLogged(p, w.st.startedAt, reports, now, w.log);
    } else {
      var front, id := order[..|order| - 1], order[|order| - 1];
      assert order == front + [id];
      DrainedEvents(p, w, front, reports, now);
      Clocks(p, w, front, reports, now, id);
      OutcomeIs(p, w.st.startedAt, id, reports, now);
      var m := DrainAll(p, w, front, reports, now);
      match OutcomeOf(p, m.st.startedAt, id, reports, now)
      case StillOpen => LoggedNone(p, w.st.startedAt, front, id, reports, now, w.log, m.log);
      case Failed => LoggedOne(p, w.st.startedAt, front, id, None, reports, now, w.log, m.log);
      case Succeeded(x) => LoggedOne(p, w.st.startedAt, front, id, Some(x), reports, now, w.log, m.log);
    }
  }

  lemma NothingLogged(p: Project, startedAt: map<string, int>, reports: map<string, Report>, now: int, log: seq<Event>)
    ensures EndsLogged(p, startedAt, SetOf([]), reports, now, log, log)
  {
  }

  lemma LoggedNone(p: Project, startedAt: map<string, int>, front: seq<string>, id: string, reports: map<string, Report>, now: int,
      before: seq<Event>, after: seq<Event>)
    requires EndsLogged(p, startedAt, SetOf(front), reports, now, before, after)
    requires forall loss :: !Ends(p, startedAt, id, reports, now, loss)
    ensures EndsLogged(p, startedAt, SetOf(front + [id]), reports, now, before, after)
  {
    hide Ends;
  }

  lemma LoggedOne(p: Project, startedAt: map<string, int>, front: seq<string>, id: string, loss: Option<real>,
      reports: map<string, Report>, now: int, before: seq<Event>, after: seq<Event>)
    requires EndsLogged(p, startedAt, SetOf(front), reports, now, before, after) && id !in front
    requires Ends(p, startedAt, id, reports, now, loss)
    ensures EndsLogged(p, startedAt, SetOf(front + [id]), reports, now, before, after + [Drain(id, loss)])
  {
    var more := after + [Drain(id, loss)];
    assert more[|before|..] == after[|before|..] + [Drain(id, loss)];
    OneEnd(p, startedAt, id, reports, now);
    hide Ends;
  }

  /** A run ends in one way. */
  lemma OneEnd(p: Project, startedAt: map<string, int>, id: string, reports: map<string, Report>, now: int)
    ensures forall a, b :: Ends(p, startedAt, id, reports, now, a) && Ends(p, startedAt, id, reports, now, b) ==> a == b
  {
  }

  lemma LossesStep(log: seq<Event>, id: string, loss: Option<real>)
    ensures MeasuredLosses(log + [Drain(id, loss)]) == MeasuredLosses(log) + if loss.Some? then [loss.value] else []
  {
    Snoc(log, Drain(id, loss));
  }

  lemma {:induction false} DrainedLosses(p: Project, w: World, order: seq<string>, reports: map<string, Report>, now: int, x: real)
    requires forall i, j :: 0 <= i < j < |order| ==> order[i] != order[j]
    ensures x in MeasuredLosses(DrainAll(p, w, order, reports, now).log)
      <==> x in MeasuredLosses(w.log) || exists id :: id in order && Reports(p, w.st.startedAt, id, reports, now, x)
  {
    hide Drained, OutcomeOf, MeasuredLosses;
    if |order| > 0 {
      var front, id := order[..|order| - 1], order[|order| - 1];
      assert order == front + [id];
      DrainedLosses(p, w, front, reports, now, x);
      Clocks(p, w, front, reports, now, id);
      var m := DrainAll(p, w, front, reports, now);
      LossesStep(m.log, id, None);
      match OutcomeOf(p, m.st.startedAt, id, reports, now)
      case StillOpen =>
      case Failed =>
      case Succeeded(y) => LossesStep(m.log, id, Some(y));
      assert (x in MeasuredLosses(DrainAll(p, w, order, reports, now).log))
        <==> (x in MeasuredLosses(m.log) || Reports(p, w.st.startedAt, id, reports, now, x));
      assert (exists i :: i in order && Reports(p, w.st.startedAt, i, reports, now, x))
        <==> (Reports(p, w.st.startedAt, id, reports, now, x) || exists i :: i in front && Reports(p, w.st.startedAt, i, reports, now, x));
    }
  }

  /** Whatever two orders the open runs are visited in, the stored loss, the budget spent and the runs left in
      flight come out the same. */
  lemma OrderDoesNotMatter(p: Project, w: World, a: seq<string>, b: seq<string>, reports: map<string, Report>, now: int)
    requires Valid(p, w) && OrderOf(a, w.st.open.Keys) && OrderOf(b, w.st.open.Keys)
    ensures var m, n := DrainAll(p, w, a, reports, now).st, DrainAll(p, w, b, reports, now).st;
            m.best == n.best && m.experimentsRun == n.experimentsRun && m.open == n.open && m.startedAt == n.startedAt
  {
    hide Explains, WithinLimits, OutcomeOf, DrainAll;
    DrainedRuns(p, w, a, reports, now);
    DrainedRuns(p, w, b, reports, now);
    assert SetOf(a) == SetOf(b);
    SameBest(p, w, a, b, reports, now);
  }

  lemma SameBest(p: Project, w: World, a: seq<string>, b: seq<string>, reports: map<string, Report>, now: int)
    requires Valid(p, w) && OrderOf(a, w.st.open.Keys) && OrderOf(b, w.st.open.Keys)
    ensures DrainAll(p, w, a, reports, now).st.best == DrainAll(p, w, b, reports, now).st.best
  {
    hide Explains, WithinLimits, OutcomeOf, DrainAll, Reports;
    var la, lb := MeasuredLosses(DrainAll(p, w, a, reports, now).log), MeasuredLosses(DrainAll(p, w, b, reports, now).log);
    forall x ensures x in la <==> x in lb {
      DrainedLosses(p, w, a, reports, now, x);
      DrainedLosses(p, w, b, reports, now, x);
    }
    BestIsHistory(p, w, a, reports, now);
    BestIsHistory(p, w, b, reports, now);
    if |la| > 0 { assert la[0] in lb; ExtremumOfSet(Minimizes(p.direction), la, lb); }
    if |lb| > 0 { assert lb[0] in la; }
  }

  lemma BestIsHistory(p: Project, w: World, order: seq<string>, reports: map<string, Report>, now: int)
    requires Valid(p, w) && OrderOf(order, w.st.open.Keys)
    ensures var m := DrainAll(p, w, order, reports, now); m.st.best == BestOf(p, m.log)
  {
    hide DrainAll, Accounted, BestOf, WithinLimits;
    DrainAllKeeps(p, w, order, reports, now);
  }

  // ----- the failure counter -----

  /** The open runs that are about to be drained with a loss, and those about to be drained without. */
  function Good(p: Project, w: World, ids: set<string>, reports: map<string, Report>, now: int): set<string> {
    set id | id in ids && OutcomeOf(p, w.st.startedAt, id, reports, now).Succeeded?
  }

  function Bad(p: Project, w: World, ids: set<string>, reports: map<string, Report>, now: int): set<string> {
    set id | id in ids && OutcomeOf(p, w.st.startedAt, id, reports, now).Failed?
  }

  function FailuresAfter(p: Project, w: World, order: seq<string>, reports: map<string, Report>, now: int): nat {
    DrainAll(p, w, order, reports, now).st.failures
  }

  /** One more run: a good one clears the counter, a bad one raises it. */
  lemma FailuresStep(p: Project, w: World, front: seq<string>, id: string, reports: map<string, Report>, now: int)
    requires id !in front
    ensures FailuresAfter(p, w, front + [id], reports, now)
         == match OutcomeOf(p, w.st.startedAt, id, reports, now)
            case StillOpen => FailuresAfter(p, w, front, reports, now)
            case Failed => FailuresAfter(p, w, front, reports, now) + 1
            case Succeeded(_) => 0
  {
    hide Complete, IsImprovement, Micro, OutcomeOf;
    Clocks(p, w, front, reports, now, id);
    assert (front + [id])[..|front|] == front;
  }

  lemma PartitionStep(p: Project, w: World, front: seq<string>, id: string, reports: map<string, Report>, now: int)
    requires id !in front
    ensures var o := OutcomeOf(p, w.st.startedAt, id, reports, now);
            && Good(p, w, SetOf(front + [id]), reports, now)
               == Good(p, w, SetOf(front), reports, now) + (if o.Succeeded? then {id} else {})
            && Bad(p, w, SetOf(front + [id]), reports, now)
               == Bad(p, w, SetOf(front), reports, now) + (if o.Failed? then {id} else {})
            && id !in Bad(p, w, SetOf(front), reports, now)
  {
    hide OutcomeOf;
  }

  /** Without a good run the counter rises by the bad ones; with one it ends at no more than their number. */
  lemma {:induction false} FailuresRange(p: Project, w: World, order: seq<string>, reports: map<string, Report>, now: int)
    requires forall i, j :: 0 <= i < j < |order| ==> order[i] != order[j]
    ensures var bad := |Bad(p, w, SetOf(order), reports, now)|;
            var after := FailuresAfter(p, w, order, reports, now);
            if Good(p, w, SetOf(order), reports, now) == {} then after == w.st.failures + bad else after <= bad
  {
    hide OutcomeOf, FailuresAfter, Good, Bad;
    if |order| == 0 {
      NoRuns(p, w, reports, now);
    } else {
      var front, id := order[..|order| - 1], order[|order| - 1];
      assert order == front + [id] && id !in front;
      FailuresRange(p, w, front, reports, now);
      FailuresStep(p, w, front, id, reports, now);
      PartitionStep(p, w, front, id, reports, now);
    }
  }

  lemma NoRuns(p: Project, w: World, reports: map<string, Report>, now: int)
    ensures Good(p, w, SetOf([]), reports, now) == {} && Bad(p, w, SetOf([]), reports, now) == {}
    ensures FailuresAfter(p, w, [], reports, now) == w.st.failures
  {
    hide OutcomeOf;
  }

  /** Bad runs visited last are all still counted. */
  lemma {:induction false} BadLast(p: Project, w: World, first: seq<string>, bad: seq<string>, reports: map<string, Report>, now: int)
    requires forall i, j :: 0 <= i < j < |first + bad| ==> (first + bad)[i] != (first + bad)[j]
    requires forall id :: id in bad ==> OutcomeOf(p, w.st.startedAt, id, reports, now).Failed?
    ensures FailuresAfter(p, w, first + bad, reports, now) == FailuresAfter(p, w, first, reports, now) + |bad|
  {
    hide OutcomeOf, FailuresAfter;
    if |bad| == 0 {
      assert first + bad == first;
    } else {
      var front, id := bad[..|bad| - 1], bad[|bad| - 1];
      var order := first + bad;
      assert order == first + front + [id];
      assert order[..|order| - 1] == first + front && id == order[|order| - 1];
      assert id !in first + front;
      BadLast(p, w, first, front, reports, now);
      FailuresStep(p, w, first + front, id, reports, now);
    }
  }

  lemma {:induction false} SomeOrderOf(keys: set<string>) returns (order: seq<string>)
    ensures OrderOf(order, keys) && |order| == |keys|
  {
    if keys == {} {
      order := [];
    } else {
      var id :| id in keys;
      var front := SomeOrderOf(keys - {id});
      order := front + [id];
    }
  }

  lemma OrderSet(order: seq<string>, keys: set<string>)
    requires OrderOf(order, keys)
    ensures SetOf(order) == keys
    ensures (forall id :: id in order ==> id in keys) && forall i, j :: 0 <= i < j < |order| ==> order[i] != order[j]
  {
  }

  lemma AppendOrders(a: seq<string>, b: seq<string>, keys: set<string>, more: set<string>)
    requires OrderOf(a, keys) && OrderOf(b, more) && keys !! more
    ensures OrderOf(a + b, keys + more)
  {
    var all := a + b;
    forall i, j | 0 <= i < j < |all| ensures all[i] != all[j] {
      if i < |a| <= j { assert a[i] in keys && b[j - |a|] in more; }
    }
  }

  /** With a good run open, one order ends at zero and another counts every bad run. */
  lemma ExtremeOrders(p: Project, w: World, reports: map<string, Report>, now: int) returns (low: seq<string>, high: seq<string>)
    requires Good(p, w, w.st.open.Keys, reports, now) != {}
    ensures OrderOf(low, w.st.open.Keys) && FailuresAfter(p, w, low, reports, now) == 0
    ensures OrderOf(high, w.st.open.Keys) && FailuresAfter(p, w, high, reports, now) == |Bad(p, w, w.st.open.Keys, reports, now)|
  {
    var g :| g in Good(p, w, w.st.open.Keys, reports, now);
    low := GoodLast(p, w, g, reports, now);
    high := AllBadLast(p, w, g, reports, now);
  }

  lemma GoodLast(p: Project, w: World, g: string, reports: map<string, Report>, now: int) returns (order: seq<string>)
    requires g in Good(p, w, w.st.open.Keys, reports, now)
    ensures OrderOf(order, w.st.open.Keys) && FailuresAfter(p, w, order, reports, now) == 0
  {
    hide OutcomeOf, FailuresAfter;
    var rest := SomeOrderOf(w.st.open.Keys - {g});
    order := rest + [g];
    FailuresStep(p, w, rest, g, reports, now);
  }

  lemma AllBadLast(p: Project, w: World, g: string, reports: map<string, Report>, now: int) returns (order: seq<string>)
    requires g in Good(p, w, w.st.open.Keys, reports, now)
    ensures OrderOf(order, w.st.open.Keys) && FailuresAfter(p, w, order, reports, now) == |Bad(p, w, w.st.open.Keys, reports, now)|
  {
    hide OutcomeOf, FailuresAfter, Good, Bad, SetOf;
    var keys := w.st.open.Keys;
    var bad := Bad(p, w, keys, reports, now);
    WithoutBad(p, w, keys, reports, now);
    var first, last := LastInOrder(keys, bad);
    order := first + last;
    hide OrderOf;
    FailuresRange(p, w, first, reports, now);
    BadLast(p, w, first, last, reports, now);
  }

  /** An order that visits some of the keys last. */
  lemma LastInOrder(keys: set<string>, late: set<string>) returns (first: seq<string>, last: seq<string>)
    requires late <= keys
    ensures OrderOf(first + last, keys) && SetOf(first) == keys - late && |last| == |late|
    ensures forall id :: id in last ==> id in late
    ensures forall i, j :: 0 <= i < j < |first| ==> first[i] != first[j]
    ensures forall i, j :: 0 <= i < j < |first + last| ==> (first + last)[i] != (first + last)[j]
  {
    hide SetOf;
    first := SomeOrderOf(keys - late);
    last := SomeOrderOf(late);
    assert keys - late + late == keys;
    OrderSet(first, keys - late);
    AppendOrders(first, last, keys - late, late);
  }

  lemma WithoutBad(p: Project, w: World, keys: set<string>, reports: map<string, Report>, now: int)
    ensures var bad := Bad(p, w, keys, reports, now);
            && bad <= keys
            && (forall id :: id in bad ==> OutcomeOf(p, w.st.startedAt, id, reports, now).Failed?)
            && Bad(p, w, keys - bad, reports, now) == {}
            && Good(p, w, keys - bad, reports, now) == Good(p, w, keys, reports, now)
  {
    hide OutcomeOf;
  }

  ghost predicate SameFailures(p: Project, w: World, reports: map<string, Report>, now: int) {
    forall a, b :: OrderOf(a, w.st.open.Keys) && OrderOf(b, w.st.open.Keys)
      ==> FailuresAfter(p, w, a, reports, now) == FailuresAfter(p, w, b, reports, now)
  }

  /** Whether the circuit breaker is open after the drain. */
  predicate Broken(p: Project, w: World, order: seq<string>, reports: map<string, Report>, now: int) {
    FailuresAfter(p, w, order, reports, now) >= p.limits.Failures()
  }

  ghost predicate SameVerdict(p: Project, w: World, reports: map<string, Report>, now: int) {
    forall a, b :: OrderOf(a, w.st.open.Keys) && OrderOf(b, w.st.open.Keys)
      ==> (Broken(p, w, a, reports, now) <==> Broken(p, w, b, reports, now))
  }

  /** The failure counter does not depend on the visiting order exactly when good and bad runs do not finish together. */
  lemma FailuresDependOnOrder(p: Project, w: World, reports: map<string, Report>, now: int)
    ensures SameFailures(p, w, reports, now)
       <==> !(Good(p, w, w.st.open.Keys, reports, now) != {} && Bad(p, w, w.st.open.Keys, reports, now) != {})
  {
    hide FailuresAfter, Good, Bad, OrderOf;
    var keys := w.st.open.Keys;
    forall a | OrderOf(a, keys) ensures SetOf(a) == keys && FailuresBounded(p, w, a, reports, now) { OrderBounded(p, w, a, reports, now); }
    if Good(p, w, keys, reports, now) != {} {
      var low, high := ExtremeOrders(p, w, reports, now);
      if Bad(p, w, keys, reports, now) != {} {
        assert FailuresAfter(p, w, low, reports, now) != FailuresAfter(p, w, high, reports, now);
      }
    }
  }

  /** The range, of an order of all the open runs. */
  ghost predicate FailuresBounded(p: Project, w: World, order: seq<string>, reports: map<string, Report>, now: int) {
    var bad := |Bad(p, w, w.st.open.Keys, reports, now)|;
    var after := FailuresAfter(p, w, order, reports, now);
    if Good(p, w, w.st.open.Keys, reports, now) == {} then after == w.st.failures + bad else after <= bad
  }

  lemma OrderBounded(p: Project, w: World, order: seq<string>, reports: map<string, Report>, now: int)
    requires OrderOf(order, w.st.open.Keys)
    ensures SetOf(order) == w.st.open.Keys && FailuresBounded(p, w, order, reports, now)
  {
    hide FailuresAfter, Good, Bad;
    OrderSet(order, w.st.open.Keys);
    FailuresRange(p, w, order, reports, now);
  }

  /** The order can decide whether submissions halt exactly when a good run finishes together with enough bad ones to
      open the breaker on their own. */
  lemma BreakerDependsOnOrder(p: Project, w: World, reports: map<string, Report>, now: int)
    ensures SameVerdict(p, w, reports, now)
       <==> !(Good(p, w, w.st.open.Keys, reports, now) != {}
              && |Bad(p, w, w.st.open.Keys, reports, now)| >= p.limits.Failures())
  {
    hide FailuresAfter, Good, Bad, OrderOf;
    var keys := w.st.open.Keys;
    forall a | OrderOf(a, keys) ensures FailuresBounded(p, w, a, reports, now) { OrderBounded(p, w, a, reports, now); }
    if Good(p, w, keys, reports, now) != {} {
      var low, high := ExtremeOrders(p, w, reports, now);
      if |Bad(p, w, keys, reports, now)| >= p.limits.Failures() {
        assert Broken(p, w, low, reports, now) != Broken(p, w, high, reports, now);
      }
    }
  }

  /** Once there is a stored loss, no pass and no reset makes it worse. */
  lemma NeverWorsens(p: Project, w: World, step: Step)
    requires w.st.best.Some?
    ensures var m := Next(p, w, step).st;
            m.best.Some? && !Beats(Minimizes(p.direction), Stored(w.st.best.value), Stored(m.best.value))
  {
    hide DrainAll, CullAll;
    match step
    case HumanReset =>
    case Reconcile(x, drainOrder, cullOrder) =>
      DrainsNeverWorsen(p, w, drainOrder, x.drainReports, x.now);
      if x.version.Some? {
        CullsKeepBest(p, DrainAll(p, w, drainOrder, x.drainReports, x.now), cullOrder, x.cullReports, x.version.value);
      }
  }

  lemma {:induction false} DrainsNeverWorsen(p: Project, w: World, order: seq<string>, reports: map<string, Report>, now: int)
    requires w.st.best.Some?
    ensures var m := DrainAll(p, w, order, reports, now).st;
            m.best.Some? && !Beats(Minimizes(p.direction), Stored(w.st.best.value), Stored(m.best.value))
  {
    hide Complete, Micro, OutcomeOf;
    if |order| > 0 {
      DrainsNeverWorsen(p, w, order[..|order| - 1], reports, now);
      var m := DrainAll(p, w, order[..|order| - 1], reports, now);
      match OutcomeOf(p, m.st.startedAt, order[|order| - 1], reports, now)
      case StillOpen =>
      case Failed =>
      case Succeeded(x) => NeverWorse(m.st.best.value, Minimizes(p.direction), x);
    }
  }

  lemma {:induction false} CullsKeepBest(p: Project, w: World, order: seq<string>, reports: map<string, Report>, version: string)
    ensures CullAll(p, w, order, reports, version).st.best == w.st.best
  {
    if |order| > 0 { CullsKeepBest(p, w, order[..|order| - 1], reports, version); }
  }
}
