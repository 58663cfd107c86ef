/** Byte-wise string order and the sorted list of a set of names, as Go's sort.Strings gives them. */
module Text {

  /** Lexicographic order. */
  predicate Leq(a: string, b: string) {
    |a| == 0 || (|b| > 0 && (a[0] < b[0] || (a[0] == b[0] && Leq(a[1..], b[1..]))))
  }

  lemma {:induction false} LeqTotal(a: string, b: string)
    ensures Leq(a, b) || Leq(b, a)
    ensures Leq(a, b) && Leq(b, a) ==> a == b
  {
    if |a| > 0 && |b| > 0 {
      LeqTotal(a[1..], b[1..]);
      assert a == [a[0]] + a[1..] && b == [b[0]] + b[1..];
    }
  }

  lemma {:induction false} LeqTransitive(a: string, b: string, c: string)
    requires Leq(a, b) && Leq(b, c)
    ensures Leq(a, c)
  {
    if |a| > 0 && a[0] == b[0] == c[0] {
      LeqTransitive(a[1..], b[1..], c[1..]);
    }
  }

  /** The strings agree before a position where the first has the smaller character. */
  ghost predicate SmallerAt(a: string, b: string, k: nat) {
    k < |a| && k < |b| && a[..k] == b[..k] && a[k] < b[k]
  }

  /** A string comes before those it begins, and before those that are greater where they first differ. */
  lemma {:induction false} LeqIs(a: string, b: string)
    ensures Leq(a, b) <==> a <= b || exists k :: SmallerAt(a, b, k)
  {
    if |a| > 0 && |b| > 0 && a[0] == b[0] {
      LeqIs(a[1..], b[1..]);
      assert a == [a[0]] + a[1..] && b == [b[0]] + b[1..];
      forall k: nat | SmallerAt(a[1..], b[1..], k) ensures SmallerAt(a, b, k + 1) {
        assert a[..k + 1] == [a[0]] + a[1..][..k] && b[..k + 1] == [b[0]] + b[1..][..k];
      }
      forall k: nat | SmallerAt(a, b, k) ensures k > 0 && SmallerAt(a[1..], b[1..], k - 1) {
        assert a[1..][..k - 1] == a[..k][1..] && b[1..][..k - 1] == b[..k][1..];
      }
    } else if |a| > 0 && |b| > 0 {
      if a[0] < b[0] { assert SmallerAt(a, b, 0); }
      forall k: nat | SmallerAt(a, b, k) ensures k > 0 ==> a[0] == b[0] { SameStart(a, b, k); }
    }
  }

  lemma SameStart(a: string, b: string, k: nat)
    requires k <= |a| && k <= |b| && a[..k] == b[..k]
    ensures k > 0 ==> a[0] == b[0]
  {
    if k > 0 { assert a[..k][0] == a[0] && b[..k][0] == b[0]; }
  }

  ghost predicate SortedNames(names: seq<string>) {
    forall i, j :: 0 <= i < j < |names| ==> Leq(names[i], names[j])
  }

  /** Sorts by a key; sort.Strings and sort.Slice promise no more than a sorted permutation. */
  method SortBy<T>(items: seq<T>, key: T -> string) returns (sorted: seq<T>)
    ensures forall i, j :: 0 <= i < j < |sorted| ==> Leq(key(sorted[i]), key(sorted[j]))
    ensures multiset(sorted) == multiset(items)
  {
    hide Leq;
    sorted := [];
    for i := 0 to |items|
      invariant forall i, j :: 0 <= i < j < |sorted| ==> Leq(key(sorted[i]), key(sorted[j]))
      invariant multiset(sorted) == multiset(items[..i])
    {
      sorted := InsertBy(sorted, items[i], key);
      assert items[..i + 1] == items[..i] + [items[i]];
    }
    assert items[..|items|] == items;
  }

  method InsertBy<T>(items: seq<T>, x: T, key: T -> string) returns (r: seq<T>)
    requires forall i, j :: 0 <= i < j < |items| ==> Leq(key(items[i]), key(items[j]))
    ensures forall i, j :: 0 <= i < j < |r| ==> Leq(key(r[i]), key(r[j]))
    ensures multiset(r) == multiset(items) + multiset{x}
  {
    hide Leq;
    var i := |items|;
    while i > 0 && !Leq(key(items[i - 1]), key(x))
      invariant 0 <= i <= |items|
      invariant forall k :: i <= k < |items| ==> Leq(key(x), key(items[k]))
    {
      LeqTotal(key(items[i - 1]), key(x));
      i := i - 1;
    }
    forall k | 0 <= k < i ensures Leq(key(items[k]), key(x)) {
      LeqTotal(key(items[k]), key(items[k]));
      if k < i - 1 { LeqTransitive(key(items[k]), key(items[i - 1]), key(x)); }
    }
    r := items[..i] + [x] + items[i..];
    assert items == items[..i] + items[i..];
  }

  method SortStrings(names: seq<string>) returns (sorted: seq<string>)
    ensures SortedNames(sorted)
    ensures multiset(sorted) == multiset(names)
  {
    sorted := SortBy(names, s => s);
  }

  /** The sorted listing of a set of names. */
  method SortedListing(names: set<string>) returns (sorted: seq<string>)
    ensures SortedNames(sorted)
    ensures forall i, j :: 0 <= i < j < |sorted| ==> sorted[i] != sorted[j]
    ensures forall n :: n in sorted <==> n in names
  {
    hide Leq;
    var listed: seq<string> := [];
    var todo := names;
    while todo != {}
      invariant todo <= names
      invariant forall n :: n in listed <==> n in names && n !in todo
      invariant forall i, j :: 0 <= i < j < |listed| ==> listed[i] != listed[j]
      decreases todo
    {
      var n :| n in todo;
      listed := listed + [n];
      todo := todo - {n};
    }
    sorted := SortStrings(listed);
    SameNames(listed, sorted);
  }

  /** A set has one sorted listing. */
  lemma {:induction false} SortedUnique(a: seq<string>, b: seq<string>)
    requires SortedNames(a) && SortedNames(b) && multiset(a) == multiset(b)
    ensures a == b
  {
    hide Leq;
    if |a| == 0 {
      assert |multiset(b)| == 0;
    } else {
      SameFirst(a, b);
      assert a == [a[0]] + a[1..] && b == [b[0]] + b[1..];
      assert multiset(a[1..]) == multiset(a) - multiset{a[0]};
      assert multiset(b[1..]) == multiset(b) - multiset{b[0]};
      SortedUnique(a[1..], b[1..]);
    }
  }

  lemma SameFirst(a: seq<string>, b: seq<string>)
    requires |a| > 0 && SortedNames(a) && SortedNames(b) && multiset(a) == multiset(b)
    ensures |b| > 0 && a[0] == b[0]
  {
    hide Leq;
    assert |multiset(a)| == |multiset(b)|;
    assert a[0] in multiset(b) && b[0] in multiset(a);
    FirstLeast(a, b[0]);
    FirstLeast(b, a[0]);
    LeqTotal(a[0], b[0]);
  }

  lemma FirstLeast(names: seq<string>, x: string)
    requires SortedNames(names) && x in names
    ensures Leq(names[0], x)
  {
    LeqTotal(x, x);
  }

  /** A permutation of distinct items: the same items, still distinct. */
  lemma SameItems<T>(a: seq<T>, b: seq<T>)
    requires multiset(a) == multiset(b)
    requires forall i, j :: 0 <= i < j < |a| ==> a[i] != a[j]
    ensures forall i :: 0 <= i < |a| ==> a[i] in b
    ensures forall i :: 0 <= i < |b| ==> b[i] in a
    ensures forall i, j :: 0 <= i < j < |b| ==> b[i] != b[j]
  {
    forall i | 0 <= i < |a| ensures a[i] in b { assert a[i] in multiset(b); }
    forall i | 0 <= i < |b| ensures b[i] in a { assert b[i] in multiset(a); }
    forall i, j | 0 <= i < j < |b| ensures b[i] != b[j] {
      if b[i] == b[j] {
        Twice(b, i, j);
        Once(a, b[i]);
      }
    }
  }

  lemma SameNames(a: seq<string>, b: seq<string>)
    requires multiset(a) == multiset(b)
    requires forall i, j :: 0 <= i < j < |a| ==> a[i] != a[j]
    ensures forall k :: k in a <==> k in b
    ensures forall i, j :: 0 <= i < j < |b| ==> b[i] != b[j]
  {
    SameItems(a, b);
  }

  lemma Twice<T>(b: seq<T>, i: nat, j: nat)
    requires i < j < |b| && b[i] == b[j]
    ensures multiset(b)[b[i]] >= 2
  {
    assert b == b[..i] + [b[i]] + b[i + 1..j] + [b[j]] + b[j + 1..];
  }

  lemma {:induction false} Once<T>(a: seq<T>, x: T)
    requires forall i, j :: 0 <= i < j < |a| ==> a[i] != a[j]
    ensures multiset(a)[x] <= 1
  {
    if |a| > 0 {
      Once(a[1..], x);
      assert a == [a[0]] + a[1..];
      assert a[0] == x ==> x !in multiset(a[1..]);
    }
  }

  /** Unicode White_Space, which strings.TrimSpace removes from both ends. */
  predicate IsSpace(c: char) {
    '\t' <= c <= '\r' || c == ' ' || c == '\U{85}' || c == '\U{A0}' || c == '\U{1680}' || '\U{2000}' <= c <= '\U{200A}'
    || c == '\U{2028}' || c == '\U{2029}' || c == '\U{202F}' || c == '\U{205F}' || c == '\U{3000}'
  }

  function TrimSpace(s: string): string
    decreases s
  {
    if |s| > 0 && IsSpace(s[0]) then TrimSpace(s[1..])
    else if |s| > 0 && IsSpace(s[|s| - 1]) then TrimSpace(s[..|s| - 1])
    else s
  }

  /** The characters trimmed, one by one. */
  lemma SpacesAre(c: char)
    ensures IsSpace(c) <==>
              c in "\t\n\U{B}\U{C}\r \U{85}\U{A0}\U{1680}\U{2000}\U{2001}\U{2002}\U{2003}\U{2004}\U{2005}\U{2006}\U{2007}\U{2008}\U{2009}\U{200A}\U{2028}\U{2029}\U{202F}\U{205F}\U{3000}"
  {
  }

  /** What is left runs from the first to the last character that is no space; everything before and after is space. */
  lemma {:induction false} TrimIs(s: string) returns (i: nat, j: nat)
    ensures i <= j <= |s| && TrimSpace(s) == s[i..j]
    ensures forall k :: 0 <= k < i || j <= k < |s| ==> IsSpace(s[k])
    ensures i < j ==> !IsSpace(s[i]) && !IsSpace(s[j - 1])
    decreases s
  {
    hide IsSpace;
    if |s| > 0 && IsSpace(s[0]) {
      i, j := TrimIs(s[1..]);
      assert s[1..][i..j] == s[i + 1..j + 1];
      assert forall k :: 0 < k < |s| ==> s[k] == s[1..][k - 1];
      i, j := i + 1, j + 1;
    } else if |s| > 0 && IsSpace(s[|s| - 1]) {
      i, j := TrimIs(s[..|s| - 1]);
      assert s[..|s| - 1][i..j] == s[i..j];
    } else {
      i, j := 0, |s|;
      assert s == s[0..|s|];
    }
  }

  /** Trimmed text is trimmed. */
  lemma {:induction false} TrimTwice(s: string)
    ensures TrimSpace(TrimSpace(s)) == TrimSpace(s)
    decreases s
  {
    hide IsSpace;
    if |s| > 0 && IsSpace(s[0]) { TrimTwice(s[1..]); }
    else if |s| > 0 && IsSpace(s[|s| - 1]) { TrimTwice(s[..|s| - 1]); }
  }
}
