/** The stored best loss: each measured loss is compared with a value rounded to six decimals, and rounded again when
    it wins. A stored value is its whole number of millionths. */
module Losses {
  import opened Values

  /** The nearest millionth, ties to even, as "%.6f" prints it. */
  function Micro(x: real): int {
    var f := (x * 1000000.0).Floor;
    var frac := x * 1000000.0 - f as real;
    if frac < 0.5 || (frac == 0.5 && f % 2 == 0) then f else f + 1
  }

  function Stored(n: int): real { n as real / 1000000.0 }

  predicate Minimizes(direction: string) { direction == "" || direction == "minimize" }

  predicate Beats(min: bool, a: real, b: real) { if min then a < b else a > b }

  function Better(min: bool, a: real, b: real): real { if Beats(min, b, a) then b else a }

  predicate IsImprovement(best: Option<int>, min: bool, x: real) {
    best.None? || Beats(min, x, Stored(best.value))
  }

  function Champion(best: Option<int>, min: bool, x: real): Option<int> {
    if IsImprovement(best, min, x) then Some(Micro(x)) else best
  }

  lemma MicroMonotone(x: real, y: real)
    requires x <= y
    ensures Micro(x) <= Micro(y)
  {
    var a, b := x * 1000000.0, y * 1000000.0;
    assert a <= b;
    assert a.Floor <= b.Floor;
  }

  lemma MicroStored(n: int)
    ensures Micro(Stored(n)) == n
  {
    assert Stored(n) * 1000000.0 == n as real;
  }

  /** Comparing with the rounded best loss keeps it the rounding of the true one. */
  lemma ChampionStep(min: bool, m: real, x: real)
    ensures Champion(Some(Micro(m)), min, x) == Some(Micro(Better(min, m, x)))
  {
    var s := Stored(Micro(m));
    MicroStored(Micro(m));
    if x <= s { MicroMonotone(x, s); }
    if s <= x { MicroMonotone(s, x); }
    if x <= m { MicroMonotone(x, m); }
    if m <= x { MicroMonotone(m, x); }
  }

  /** A measurement never makes the stored loss worse. */
  lemma NeverWorse(best: int, min: bool, x: real)
    ensures var c := Champion(Some(best), min, x);
            c.Some? && !Beats(min, Stored(best), Stored(c.value))
  {
    MicroStored(best);
    if x <= Stored(best) { MicroMonotone(x, Stored(best)); } else { MicroMonotone(Stored(best), x); }
  }

  /** The stored loss is the nearest whole number of millionths, and of two equally near the even one. */
  lemma MicroNearest(x: real)
    ensures x * 1000000.0 - 0.5 <= Micro(x) as real <= x * 1000000.0 + 0.5
    ensures Micro(x) as real == x * 1000000.0 - 0.5 || Micro(x) as real == x * 1000000.0 + 0.5 ==> Micro(x) % 2 == 0
    ensures Stored(Micro(x)) * 1000000.0 == Micro(x) as real
  {
    var f := (x * 1000000.0).Floor;
    assert f as real <= x * 1000000.0 < f as real + 1.0;
  }

  /** A loss improves when nothing is stored or it beats what is, in the direction asked for. */
  lemma ImprovesWhen(best: Option<int>, direction: string, x: real)
    ensures IsImprovement(best, Minimizes(direction), x)
       <==> best.None? || if direction in {"", "minimize"} then x * 1000000.0 < best.value as real else x * 1000000.0 > best.value as real
  {
    if best.Some? { assert Stored(best.value) * 1000000.0 == best.value as real; }
  }

  function Extremum(min: bool, losses: seq<real>): real
    requires |losses| > 0
  {
    if |losses| == 1 then losses[0]
    else Better(min, Extremum(min, losses[..|losses| - 1]), losses[|losses| - 1])
  }

  /** The extremum is one of the losses, and none beats it. */
  lemma {:induction false} ExtremumIs(min: bool, losses: seq<real>)
    requires |losses| > 0
    ensures Extremum(min, losses) in losses
    ensures forall x :: x in losses ==> !Beats(min, x, Extremum(min, losses))
  {
    if |losses| > 1 {
      var front, last := losses[..|losses| - 1], losses[|losses| - 1];
      ExtremumIs(min, front);
      assert losses == front + [last];
    }
  }

  /** It depends on which losses were measured, not on their order. */
  lemma ExtremumOfSet(min: bool, a: seq<real>, b: seq<real>)
    requires |a| > 0 && |b| > 0
    requires forall x :: x in a <==> x in b
    ensures Extremum(min, a) == Extremum(min, b)
  {
    ExtremumIs(min, a);
    ExtremumIs(min, b);
  }
}
