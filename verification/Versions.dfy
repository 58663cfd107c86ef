/** Version order and the newest version of each registry pack. */
module Versions {
  import opened Values
  import opened Text
  import opened RunIds

  function Split(s: string): (parts: seq<string>)
    ensures |parts| > 0
  {
    if |s| == 0 then [""]
    else
      var rest := Split(s[1..]);
      if s[0] == '.' then [""] + rest else [[s[0]] + rest[0]] + rest[1..]
  }

  function TrimV(s: string): string { if |s| > 0 && s[0] == 'v' then s[1..] else s }

  function Segments(version: string): seq<string> { Split(TrimV(TrimSpace(version))) }

  /** A missing segment reads as the empty string. */
  function Segment(parts: seq<string>, i: nat): string { if i < |parts| then parts[i] else "" }

  predicate SameSegment(a: string, b: string) {
    if Atoi(a).Some? && Atoi(b).Some? then Atoi(a) == Atoi(b) else a == b
  }

  predicate SegmentLess(a: string, b: string) {
    if Atoi(a).Some? && Atoi(b).Some? then Atoi(a).value < Atoi(b).value else Leq(a, b) && a != b
  }

  predicate LessFrom(a: seq<string>, b: seq<string>, i: nat)
    decreases |a| + |b| - i
  {
    if i >= |a| && i >= |b| then false
    else if SameSegment(Segment(a, i), Segment(b, i)) then LessFrom(a, b, i + 1)
    else SegmentLess(Segment(a, i), Segment(b, i))
  }

  predicate Less(a: string, b: string) { LessFrom(Segments(a), Segments(b), 0) }

  /** The comparison of the first segments that differ decides. */
  method VersionLess(a: string, b: string) returns (less: bool)
    ensures less == Less(a, b)
  {
    hide Atoi, Leq, Segments;
    var xs, ys := Segments(a), Segments(b);
    var i := 0;
    while i < |xs| || i < |ys|
      invariant 0 <= i
      invariant Less(a, b) == LessFrom(xs, ys, i)
      decreases |xs| + |ys| - i
    {
      var x, y := "", "";
      if i < |xs| { x := xs[i]; }
      if i < |ys| { y := ys[i]; }
      if Atoi(x).Some? && Atoi(y).Some? {
        if Atoi(x) != Atoi(y) { return Atoi(x).value < Atoi(y).value; }
      } else if x != y {
        return Leq(x, y);
      }
      i := i + 1;
    }
    return false;
  }

  // ----- when it is an order -----

  /** The segments put together again, with a dot between any two. */
  function Join(parts: seq<string>): string
    requires |parts| > 0
  {
    if |parts| == 1 then parts[0] else parts[0] + "." + Join(parts[1..])
  }

  /** The segments are the text between the dots. */
  lemma {:induction false} SplitIs(s: string)
    ensures Join(Split(s)) == s && forall part :: part in Split(s) ==> '.' !in part
  {
    if |s| > 0 {
      SplitIs(s[1..]);
      var rest := Split(s[1..]);
      if s[0] == '.' {
        assert ([""] + rest)[1..] == rest;
      } else if |rest| > 1 {
        assert ([[s[0]] + rest[0]] + rest[1..])[1..] == rest[1..];
      }
      assert s == [s[0]] + s[1..];
    }
  }

  /** One leading v is no part of a version. */
  lemma VersionMarkDropped(s: string)
    ensures TrimV("v" + s) == s && (s == "" || s[0] != 'v' ==> TrimV(s) == s)
  {
    assert ("v" + s)[1..] == s;
  }

  /** What decides between two versions: the first position where the segments are not the same number or, where they are
      not both numbers, not the same text; numbers by value, all else as text, and a missing segment is empty text. */
  ghost predicate DecidedAt(a: seq<string>, b: seq<string>, i: nat) {
    && (i < |a| || i < |b|)
    && (forall k :: 0 <= k < i ==> SameSegment(Segment(a, k), Segment(b, k)))
    && !SameSegment(Segment(a, i), Segment(b, i))
  }

  lemma SegmentsAre(version: string)
    ensures Join(Segments(version)) == TrimV(TrimSpace(version)) && forall part :: part in Segments(version) ==> '.' !in part
    ensures forall i: nat :: Segment(Segments(version), i) == if i < |Segments(version)| then Segments(version)[i] else ""
  {
    SplitIs(TrimV(TrimSpace(version)));
  }

  lemma SegmentsCompare(x: string, y: string)
    ensures Atoi(x).Some? && Atoi(y).Some? ==>
              (SameSegment(x, y) <==> Atoi(x).value == Atoi(y).value) && (SegmentLess(x, y) <==> Atoi(x).value < Atoi(y).value)
    ensures Atoi(x).None? || Atoi(y).None? ==>
              (SameSegment(x, y) <==> x == y) && (SegmentLess(x, y) <==> x != y && (x <= y || exists k :: SmallerAt(x, y, k)))
  {
    hide Atoi, Leq;
    LeqIs(x, y);
  }

  lemma {:induction false} LessWhen(a: seq<string>, b: seq<string>, i: nat)
    requires forall k :: 0 <= k < i ==> SameSegment(Segment(a, k), Segment(b, k))
    ensures LessFrom(a, b, i) <==> exists k :: k >= i && DecidedAt(a, b, k) && SegmentLess(Segment(a, k), Segment(b, k))
    decreases |a| + |b| - i
  {
    hide SameSegment, SegmentLess;
    if i < |a| || i < |b| {
      if SameSegment(Segment(a, i), Segment(b, i)) {
        LessWhen(a, b, i + 1);
        assert forall k :: k >= i && DecidedAt(a, b, k) ==> k != i;
      } else {
        assert DecidedAt(a, b, i);
        assert forall k :: k >= i && DecidedAt(a, b, k) ==> k == i;
      }
    }
  }

  /** A version is older when the segments at the deciding position say so. */
  lemma OlderWhen(a: string, b: string)
    ensures Less(a, b)
       <==> exists k :: k >= 0 && DecidedAt(Segments(a), Segments(b), k)
                        && SegmentLess(Segment(Segments(a), k), Segment(Segments(b), k))
  {
    hide LessFrom, DecidedAt, Segments, SegmentLess;
    LessWhen(Segments(a), Segments(b), 0);
  }

  /** What a strict weak order owes three elements: no chain goes round, and being incomparable is an equivalence. */
  predicate Laws(ab: bool, ba: bool, bc: bool, cb: bool, ac: bool, ca: bool) {
    && (ab && bc ==> ac) && (ac && cb ==> ab) && (ba && ac ==> bc) && (bc && ca ==> ba) && (ca && ab ==> cb) && (cb && ba ==> ca)
    && (!ab && !ba && !bc && !cb ==> !ac && !ca)
    && (!ab && !ba && !ac && !ca ==> !bc && !cb)
    && (!ac && !ca && !bc && !cb ==> !ab && !ba)
  }

  predicate Ordered(a: string, b: string, c: string) {
    Laws(Less(a, b), Less(b, a), Less(b, c), Less(c, b), Less(a, c), Less(c, a))
  }

  /** A text between two numbers as texts go, while the numbers, or what follows them where they are equal, do not come
      in that order: `less` says whether what follows the first is less than what follows the last. */
  predicate Tangle(x: string, t: string, y: string, less: bool) {
    && Atoi(x).Some? && Atoi(y).Some? && Atoi(t).None? && Leq(x, t) && Leq(t, y)
    && Atoi(y).value <= Atoi(x).value && (Atoi(x) == Atoi(y) ==> !less)
  }

  /** The versions tangle at the first position where they do not all read the same. */
  predicate TangledFrom(p: seq<string>, q: seq<string>, r: seq<string>, i: nat)
    decreases |p| + |q| + |r| - i
  {
    if i >= |p| && i >= |q| && i >= |r| then false
    else if SameSegment(Segment(p, i), Segment(q, i)) && SameSegment(Segment(q, i), Segment(r, i)) then TangledFrom(p, q, r, i + 1)
    else Tangle(Segment(p, i), Segment(q, i), Segment(r, i), LessFrom(p, r, i + 1))
  }

  predicate AnyTangledFrom(a: seq<string>, b: seq<string>, c: seq<string>, i: nat) {
    || TangledFrom(a, b, c, i) || TangledFrom(c, b, a, i)
    || TangledFrom(b, a, c, i) || TangledFrom(c, a, b, i)
    || TangledFrom(a, c, b, i) || TangledFrom(b, c, a, i)
  }

  predicate Tangled(a: string, b: string, c: string) { AnyTangledFrom(Segments(a), Segments(b), Segments(c), 0) }

  lemma SegmentOrder(a: string, b: string)
    ensures SameSegment(a, b) <==> !SegmentLess(a, b) && !SegmentLess(b, a)
    ensures !(SegmentLess(a, b) && SegmentLess(b, a))
    ensures SameSegment(a, b) <==> SameSegment(b, a)
  {
    hide Atoi, Leq;
    LeqTotal(a, b);
  }

  /** The comparison from a position on. */
  lemma LessAt(a: seq<string>, b: seq<string>, i: nat)
    ensures LessFrom(a, b, i)
         == if SameSegment(Segment(a, i), Segment(b, i)) then LessFrom(a, b, i + 1) else SegmentLess(Segment(a, i), Segment(b, i))
  {
    hide Atoi, Leq;
  }

  lemma {:induction false} Asymmetric(a: seq<string>, b: seq<string>, i: nat)
    ensures !(LessFrom(a, b, i) && LessFrom(b, a, i))
    decreases |a| + |b| - i
  {
    hide SameSegment, SegmentLess;
    if i < |a| || i < |b| {
      SegmentOrder(Segment(a, i), Segment(b, i));
      Asymmetric(a, b, i + 1);
    }
  }

  function Here(x: string, y: string, rest: bool): bool { if SameSegment(x, y) then rest else SegmentLess(x, y) }

  predicate AnyTangle(x: string, y: string, z: string, xy: bool, yx: bool, yz: bool, zy: bool, xz: bool, zx: bool) {
    || Tangle(x, y, z, xz) || Tangle(z, y, x, zx)
    || Tangle(y, x, z, yz) || Tangle(z, x, y, zy)
    || Tangle(x, z, y, xy) || Tangle(y, z, x, yx)
  }

  /** One position, where the three segments do not all read the same. */
  lemma LawsHere(x: string, y: string, z: string, xy: bool, yx: bool, yz: bool, zy: bool, xz: bool, zx: bool)
    requires !(SameSegment(x, y) && SameSegment(y, z)) && !(xy && yx) && !(yz && zy) && !(xz && zx)
    ensures Laws(Here(x, y, xy), Here(y, x, yx), Here(y, z, yz), Here(z, y, zy), Here(x, z, xz), Here(z, x, zx))
       <==> !AnyTangle(x, y, z, xy, yx, yz, zy, xz, zx)
  {
    hide Atoi, Leq;
    LeqTotal(x, y);
    LeqTotal(y, z);
    LeqTotal(x, z);
    LeqTransitiveAll(x, y, z);
  }

  lemma LeqTransitiveAll(x: string, y: string, z: string)
    ensures Leq(x, y) && Leq(y, z) ==> Leq(x, z)
    ensures Leq(x, z) && Leq(z, y) ==> Leq(x, y)
    ensures Leq(y, x) && Leq(x, z) ==> Leq(y, z)
    ensures Leq(y, z) && Leq(z, x) ==> Leq(y, x)
    ensures Leq(z, x) && Leq(x, y) ==> Leq(z, y)
    ensures Leq(z, y) && Leq(y, x) ==> Leq(z, x)
  {
    hide Leq;
    if Leq(x, y) && Leq(y, z) { LeqTransitive(x, y, z); }
    if Leq(x, z) && Leq(z, y) { LeqTransitive(x, z, y); }
    if Leq(y, x) && Leq(x, z) { LeqTransitive(y, x, z); }
    if Leq(y, z) && Leq(z, x) { LeqTransitive(y, z, x); }
    if Leq(z, x) && Leq(x, y) { LeqTransitive(z, x, y); }
    if Leq(z, y) && Leq(y, x) { LeqTransitive(z, y, x); }
  }

  predicate LawsFrom(a: seq<string>, b: seq<string>, c: seq<string>, i: nat) {
    Laws(LessFrom(a, b, i), LessFrom(b, a, i), LessFrom(b, c, i), LessFrom(c, b, i), LessFrom(a, c, i), LessFrom(c, a, i))
  }

  lemma {:induction false} LawsFromExactly(a: seq<string>, b: seq<string>, c: seq<string>, i: nat)
    ensures LawsFrom(a, b, c, i) <==> !AnyTangledFrom(a, b, c, i)
    decreases |a| + |b| + |c| - i
  {
    hide SameSegment, SegmentLess, AnyTangle, Laws, LessFrom, TangledFrom, AnyTangledFrom;
    if i >= |a| && i >= |b| && i >= |c| {
      NothingLeft(a, b, c, i);
    } else {
      var x, y, z := Segment(a, i), Segment(b, i), Segment(c, i);
      AllLessAt(a, b, c, i);
      SameSymmetric(x, y, z);
      AnyTangledAt(a, b, c, i);
      if SameSegment(x, y) && SameSegment(y, z) {
        LawsFromExactly(a, b, c, i + 1);
      } else {
        Asymmetric(a, b, i + 1);
        Asymmetric(b, c, i + 1);
        Asymmetric(a, c, i + 1);
        LawsHere(x, y, z, LessFrom(a, b, i + 1), LessFrom(b, a, i + 1), LessFrom(b, c, i + 1), LessFrom(c, b, i + 1),
                 LessFrom(a, c, i + 1), LessFrom(c, a, i + 1));
      }
    }
  }

  lemma AnyTangledAt(a: seq<string>, b: seq<string>, c: seq<string>, i: nat)
    requires i < |a| || i < |b| || i < |c|
    ensures var x, y, z := Segment(a, i), Segment(b, i), Segment(c, i);
            AnyTangledFrom(a, b, c, i)
            <==> if SameSegment(x, y) && SameSegment(y, z) then AnyTangledFrom(a, b, c, i + 1)
                 else AnyTangle(x, y, z, LessFrom(a, b, i + 1), LessFrom(b, a, i + 1), LessFrom(b, c, i + 1),
                                LessFrom(c, b, i + 1), LessFrom(a, c, i + 1), LessFrom(c, a, i + 1))
  {
    hide SameSegment, Tangle, LessFrom;
    SameSymmetric(Segment(a, i), Segment(b, i), Segment(c, i));
  }

  lemma NothingLeft(a: seq<string>, b: seq<string>, c: seq<string>, i: nat)
    requires i >= |a| && i >= |b| && i >= |c|
    ensures LawsFrom(a, b, c, i) && !AnyTangledFrom(a, b, c, i)
  {
  }

  lemma AllLessAt(a: seq<string>, b: seq<string>, c: seq<string>, i: nat)
    ensures LessFrom(a, b, i) == Here(Segment(a, i), Segment(b, i), LessFrom(a, b, i + 1))
    ensures LessFrom(b, a, i) == Here(Segment(b, i), Segment(a, i), LessFrom(b, a, i + 1))
    ensures LessFrom(b, c, i) == Here(Segment(b, i), Segment(c, i), LessFrom(b, c, i + 1))
    ensures LessFrom(c, b, i) == Here(Segment(c, i), Segment(b, i), LessFrom(c, b, i + 1))
    ensures LessFrom(a, c, i) == Here(Segment(a, i), Segment(c, i), LessFrom(a, c, i + 1))
    ensures LessFrom(c, a, i) == Here(Segment(c, i), Segment(a, i), LessFrom(c, a, i + 1))
  {
    hide LessFrom, SameSegment, SegmentLess;
    LessAt(a, b, i);
    LessAt(b, a, i);
    LessAt(b, c, i);
    LessAt(c, b, i);
    LessAt(a, c, i);
    LessAt(c, a, i);
  }

  lemma SameSymmetric(x: string, y: string, z: string)
    ensures SameSegment(x, y) <==> SameSegment(y, x)
    ensures SameSegment(y, z) <==> SameSegment(z, y)
    ensures SameSegment(x, z) <==> SameSegment(z, x)
    ensures SameSegment(x, y) && SameSegment(x, z) ==> SameSegment(y, z)
    ensures SameSegment(x, z) && SameSegment(y, z) ==> SameSegment(x, y)
    ensures SameSegment(x, y) && SameSegment(y, z) ==> SameSegment(x, z)
  {
    hide Atoi;
  }

  /** Any three versions obey the laws of a strict weak order if and only if they do not tangle. */
  lemma OrderedExactly(a: string, b: string, c: string)
    ensures !Less(a, a)
    ensures Ordered(a, b, c) <==> !Tangled(a, b, c)
  {
    hide LessFrom, TangledFrom, Segments;
    Asymmetric(Segments(a), Segments(a), 0);
    LawsFromExactly(Segments(a), Segments(b), Segments(c), 0);
  }

  /** Position by position, which segments are numbers. */
  type Shape = nat -> bool

  ghost predicate Fits(shape: Shape, parts: seq<string>) {
    forall i :: 0 <= i < |parts| ==> (Atoi(parts[i]).Some? <==> shape(i))
  }

  lemma {:induction false} OneShapeFrom(shape: Shape, p: seq<string>, q: seq<string>, r: seq<string>, i: nat)
    requires Fits(shape, p) && Fits(shape, q) && Fits(shape, r)
    ensures !TangledFrom(p, q, r, i)
    decreases |p| + |q| + |r| - i
  {
    hide Atoi, SameSegment;
    if i < |p| || i < |q| || i < |r| {
      AbsentIsText();
      if Leq(Segment(p, i), "") { LeqTotal(Segment(p, i), ""); LeqEmpty(Segment(p, i)); }
      OneShapeFrom(shape, p, q, r, i + 1);
    }
  }

  lemma AbsentIsText()
    ensures Atoi("").None?
  {
  }

  lemma LeqEmpty(s: string)
    ensures Leq("", s)
  {
  }

  /** Among versions of one shape, all-numeric ones for instance, nothing tangles: the comparison is a strict weak order. */
  lemma StrictWeakOrder(shape: Shape, a: string, b: string, c: string)
    requires Fits(shape, Segments(a)) && Fits(shape, Segments(b)) && Fits(shape, Segments(c))
    ensures !Less(a, a) && Ordered(a, b, c)
  {
    hide Less, TangledFrom, Segments, Fits;
    var x, y, z := Segments(a), Segments(b), Segments(c);
    OneShapeFrom(shape, x, y, z, 0);
    OneShapeFrom(shape, z, y, x, 0);
    OneShapeFrom(shape, y, x, z, 0);
    OneShapeFrom(shape, z, x, y, 0);
    OneShapeFrom(shape, x, z, y, 0);
    OneShapeFrom(shape, y, z, x, 0);
    OrderedExactly(a, b, c);
  }

  /** An example of a tangle: 9 < 10 < 1x < 9. */
  lemma MixedVersionsCycle()
    ensures Less("9", "10") && Less("10", "1x") && Less("1x", "9")
  {
    One("9");
    One("10");
    One("1x");
    assert Atoi("9") == Some(9) by { assert DigitsValue("9") == 9 by { assert "9"[..0] == ""; } }
    assert Atoi("10") == Some(10) by { assert "10"[..1] == "1" && "1"[..0] == ""; assert DigitsValue("1") == 1; }
    assert Atoi("1x").None? by { assert "1x"[1] == 'x'; }
    assert Leq("10", "1x") && Leq("1x", "9");
  }

  lemma One(s: string)
    requires s in {"9", "10", "1x"}
    ensures Segments(s) == [s]
  {
    assert TrimSpace(s) == s && TrimV(s) == s;
    assert '.' !in s;
    SplitPlain(s);
  }

  lemma {:induction false} SplitPlain(s: string)
    requires '.' !in s
    ensures Split(s) == [s]
  {
    if |s| > 0 {
      SplitPlain(s[1..]);
      assert [s[0]] + s[1..] == s;
    }
  }

  // ----- the newest of each name -----

  datatype Pack = Pack(name: string, version: string, content: string)

  /** The pack the loop has for a name after a listing: a later one replaces it only when strictly newer. */
  ghost function Newest(listing: seq<Pack>, name: string): Option<Pack> {
    if |listing| == 0 then None
    else
      var cur, p := Newest(listing[..|listing| - 1], name), listing[|listing| - 1];
      if p.name == name && (cur.None? || Less(cur.value.version, p.version)) then Some(p) else cur
  }

  /** The names in the order in which they are first listed. */
  ghost predicate InOrder(listing: seq<Pack>, names: seq<string>) {
    forall i, j :: 0 <= i < j < |names| ==> names[i] != names[j] && Sooner(listing, names[i], names[j])
  }

  /** One row for each name that is not installed locally, in order of first appearance. */
  method NewestPerName(local: set<string>, listing: seq<Pack>) returns (items: seq<Pack>)
    ensures forall i :: 0 <= i < |items| ==> Newest(listing, items[i].name) == Some(items[i]) && items[i].name !in local
    ensures forall i, j :: 0 <= i < j < |items| ==> items[i].name != items[j].name && Sooner(listing, items[i].name, items[j].name)
    ensures forall p :: p in listing && p.name !in local ==> exists i :: 0 <= i < |items| && items[i].name == p.name
  {
    hide Less, Sooner, Newest;
    var newest, order := CollectNewest(local, listing);
    items := [];
    for i := 0 to |order|
      invariant |items| == i && forall k :: 0 <= k < i ==> items[k] == newest[order[k]]
    {
      items := items + [newest[order[i]]];
    }
    forall p | p in listing && p.name !in local ensures exists i :: 0 <= i < |items| && items[i].name == p.name {
      Found(listing, p);
      assert p.name in order;
      var i :| 0 <= i < |order| && order[i] == p.name;
      assert items[i].name == p.name;
    }
  }

  method CollectNewest(local: set<string>, listing: seq<Pack>) returns (newest: map<string, Pack>, order: seq<string>)
    ensures (forall n :: n in order <==> n in newest) && InOrder(listing, order)
    ensures forall n :: n in newest ==> n !in local && Newest(listing, n) == Some(newest[n]) && newest[n].name == n
    ensures forall n :: n !in newest && n !in local ==> Newest(listing, n) == None
  {
    hide Less, Sooner, InOrder;
    newest, order := map[], [];
    assert InOrder(listing, order) by { NoOrder(listing); }
    for i := 0 to |listing|
      invariant (forall n :: n in order <==> n in newest) && InOrder(listing, order)
      invariant forall n :: n in newest ==> n !in local && Newest(listing[..i], n) == Some(newest[n]) && newest[n].name == n
      invariant forall n :: n !in newest && n !in local ==> Newest(listing[..i], n) == None
    {
      var rp := listing[i];
      assert listing[..i + 1][..i] == listing[..i];
      if rp.name !in local {
        var ok := rp.name in newest;
        if !ok {
          SeenInOrder(listing, i, order, rp.name);
          order := order + [rp.name];
        }
        var older := false;
        if ok { older := VersionLess(newest[rp.name].version, rp.version); }
        if !ok || older { newest := newest[rp.name := rp]; }
      }
    }
    assert listing[..|listing|] == listing;
  }

  lemma NoOrder(listing: seq<Pack>)
    ensures InOrder(listing, [])
  {
  }

  lemma SeenInOrder(listing: seq<Pack>, n: nat, names: seq<string>, other: string)
    requires n <= |listing| && InOrder(listing, names) && Newest(listing[..n], other).None?
    requires forall name :: name in names ==> Newest(listing[..n], name).Some?
    ensures InOrder(listing, names + [other])
  {
    hide Sooner, Newest;
    forall j | 0 <= j < |names| ensures Sooner(listing, names[j], other) { SeenSooner(listing, n, names[j], other); }
  }

  /** One name is listed before the other ever is. */
  ghost predicate Sooner(listing: seq<Pack>, name: string, other: string) {
    exists k :: 0 <= k < |listing| && listing[k].name == name && forall l :: 0 <= l <= k ==> listing[l].name != other
  }

  lemma SeenSooner(listing: seq<Pack>, n: nat, name: string, other: string)
    requires n <= |listing| && Newest(listing[..n], name).Some? && Newest(listing[..n], other).None?
    ensures Sooner(listing, name, other)
  {
    hide Less;
    var k := Listed(listing[..n], name);
    forall l | 0 <= l <= k ensures listing[l].name != other {
      if listing[..n][l].name == other { Found(listing[..n], listing[..n][l]); }
    }
  }

  lemma {:induction false} Listed(listing: seq<Pack>, name: string) returns (k: nat)
    requires Newest(listing, name).Some?
    ensures k < |listing| && listing[k].name == name
  {
    hide Less;
    k := |listing| - 1;
    if listing[k].name != name { k := Listed(listing[..k], name); }
  }

  lemma {:induction false} Found(listing: seq<Pack>, p: Pack)
    requires p in listing
    ensures Newest(listing, p.name).Some?
  {
    hide Less;
    var last := |listing| - 1;
    if listing[last] != p { Found(listing[..last], p); }
  }

  /** No three versions listed for a name tangle. */
  ghost predicate Untangled(listing: seq<Pack>, name: string) {
    forall p, q, r :: p in listing && q in listing && r in listing && p.name == name && q.name == name && r.name == name
      ==> !Tangled(p.version, q.version, r.version)
  }

  lemma ListedOrdered(listing: seq<Pack>, name: string, p: Pack, q: Pack, r: Pack)
    requires Untangled(listing, name) && p in listing && q in listing && r in listing
    requires p.name == name && q.name == name && r.name == name
    ensures Ordered(p.version, q.version, r.version) && !Less(p.version, p.version)
  {
    hide Tangled, Ordered, Less;
    OrderedExactly(p.version, q.version, r.version);
  }

  /** The row is one of the listed packs of its name, and none of them is newer. */
  lemma {:induction false} NewestIsMaximal(listing: seq<Pack>, name: string)
    requires Untangled(listing, name)
    ensures var r := Newest(listing, name);
            if r.None? then forall p :: p in listing ==> p.name != name
            else r.value in listing && r.value.name == name
                 && forall p :: p in listing && p.name == name ==> !Less(r.value.version, p.version)
  {
    hide Less, Tangled;
    if |listing| > 0 {
      var front, q := listing[..|listing| - 1], listing[|listing| - 1];
      assert listing == front + [q];
      NewestIsMaximal(front, name);
      var cur, r := Newest(front, name), Newest(listing, name);
      if r.Some? {
        forall p | p in listing && p.name == name ensures !Less(r.value.version, p.version) {
          if r != cur {
            ListedOrdered(listing, name, q, p, q);
            if cur.Some? { ListedOrdered(listing, name, cur.value, q, p); }
          }
        }
      }
    }
  }

  /** And it is listed before any other that is as new. */
  lemma {:induction false} NewestIsFirst(listing: seq<Pack>, name: string) returns (i: nat)
    requires Untangled(listing, name) && Newest(listing, name).Some?
    ensures i < |listing| && listing[i] == Newest(listing, name).value
    ensures forall k :: 0 <= k < i && listing[k].name == name ==> Less(listing[k].version, listing[i].version)
  {
    hide Less, Tangled;
    i := |listing| - 1;
    var front, q := listing[..i], listing[i];
    assert listing == front + [q];
    var cur := Newest(front, name);
    NewestIsMaximal(front, name);
    if Newest(listing, name) == cur && !(q.name == name && (cur.None? || Less(cur.value.version, q.version))) {
      i := NewestIsFirst(front, name);
    } else {
      forall k | 0 <= k < |front| && listing[k].name == name ensures Less(listing[k].version, q.version) {
        assert front[k] in front;
        ListedOrdered(listing, name, cur.value, listing[k], q);
        ListedOrdered(listing, name, listing[k], q, cur.value);
      }
    }
  }

  /** Listings of the same packs in any order and with any repeats give rows of the same version class. */
  lemma ListingOrderDoesNotMatter(a: seq<Pack>, b: seq<Pack>, name: string)
    requires Untangled(a, name) && forall p :: p in a <==> p in b
    ensures Newest(a, name).Some? <==> Newest(b, name).Some?
    ensures Newest(a, name).Some? ==>
              var x, y := Newest(a, name).value.version, Newest(b, name).value.version;
              !Less(x, y) && !Less(y, x)
  {
    hide Less, Newest, Tangled;
    NewestIsMaximal(a, name);
    NewestIsMaximal(b, name);
  }
}
