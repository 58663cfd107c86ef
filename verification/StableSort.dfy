/** What a stable sort by a rank computes, as a library function would.
    A comparator that is a total preorder on a countable type is the order of some rank into the reals. */
module StableSort {

  function Filter<T>(s: seq<T>, keep: T -> bool): seq<T> {
    if |s| == 0 then [] else
    Filter(s[..|s| - 1], keep) + if keep(s[|s| - 1]) then [s[|s| - 1]] else []
  }

  /** Puts `x` behind everything that ranks no higher. */
  function Insert<T>(s: seq<T>, x: T, rank: T -> real): seq<T> {
    if |s| == 0 || rank(s[|s| - 1]) <= rank(x) then s + [x]
    else Insert(s[..|s| - 1], x, rank) + [s[|s| - 1]]
  }

  function Sort<T>(s: seq<T>, rank: T -> real): seq<T> {
    if |s| == 0 then [] else Insert(Sort(s[..|s| - 1], rank), s[|s| - 1], rank)
  }

  /** No entry ranks above `bound`. */
  ghost predicate Below<T>(s: seq<T>, bound: real, rank: T -> real) {
    |s| > 0 ==> rank(s[|s| - 1]) <= bound && Below(s[..|s| - 1], bound, rank)
  }

  ghost predicate Sorted<T>(s: seq<T>, rank: T -> real) {
    |s| > 0 ==> Below(s[..|s| - 1], rank(s[|s| - 1]), rank) && Sorted(s[..|s| - 1], rank)
  }

  lemma {:induction false} BelowRises<T>(s: seq<T>, lo: real, hi: real, rank: T -> real)
    requires lo <= hi && Below(s, lo, rank)
    ensures Below(s, hi, rank)
  {
    if |s| > 0 {
      BelowRises(s[..|s| - 1], lo, hi, rank);
    }
  }

  lemma {:induction false} BelowAt<T>(s: seq<T>, bound: real, rank: T -> real, i: nat)
    requires Below(s, bound, rank) && i < |s|
    ensures rank(s[i]) <= bound
  {
    if i < |s| - 1 { BelowAt(s[..|s| - 1], bound, rank, i); }
  }

  lemma {:induction false} SortedAt<T>(s: seq<T>, rank: T -> real, i: nat, j: nat)
    requires Sorted(s, rank) && i < j < |s|
    ensures rank(s[i]) <= rank(s[j])
  {
    if j < |s| - 1 {
      SortedAt(s[..|s| - 1], rank, i, j);
    } else {
      BelowAt(s[..j], rank(s[j]), rank, i);
    }
  }

  lemma {:induction false} InsertBelow<T>(s: seq<T>, x: T, rank: T -> real, bound: real)
    requires Below(s, bound, rank) && rank(x) <= bound
    ensures Below(Insert(s, x, rank), bound, rank)
  {
    if |s| == 0 || rank(s[|s| - 1]) <= rank(x) {
      assert (s + [x])[..|s|] == s;
    } else {
      var t := Insert(s[..|s| - 1], x, rank);
      assert (t + [s[|s| - 1]])[..|t|] == t;
      InsertBelow(s[..|s| - 1], x, rank, bound);
    }
  }

  lemma {:induction false} InsertSorts<T>(s: seq<T>, x: T, rank: T -> real)
    requires Sorted(s, rank)
    ensures Sorted(Insert(s, x, rank), rank)
  {
    if |s| == 0 || rank(s[|s| - 1]) <= rank(x) {
      assert (s + [x])[..|s|] == s;
      if |s| > 0 {
        BelowRises(s[..|s| - 1], rank(s[|s| - 1]), rank(x), rank);
      }
    } else {
      var front, last := s[..|s| - 1], s[|s| - 1];
      var t := Insert(front, x, rank);
      assert (t + [last])[..|t|] == t;
      InsertSorts(front, x, rank);
      InsertBelow(front, x, rank, rank(last));
    }
  }

  lemma {:induction false} InsertMembers<T>(s: seq<T>, x: T, rank: T -> real)
    ensures multiset(Insert(s, x, rank)) == multiset(s) + multiset{x}
  {
    if |s| > 0 {
      assert s == s[..|s| - 1] + [s[|s| - 1]];
      InsertMembers(s[..|s| - 1], x, rank);
    }
  }

  lemma {:induction false} SortMembers<T>(s: seq<T>, rank: T -> real)
    ensures multiset(Sort(s, rank)) == multiset(s)
  {
    if |s| > 0 {
      SortMembers(s[..|s| - 1], rank);
      InsertMembers(Sort(s[..|s| - 1], rank), s[|s| - 1], rank);
      assert s == s[..|s| - 1] + [s[|s| - 1]];
    }
  }

  lemma {:induction false} SortSorts<T>(s: seq<T>, rank: T -> real)
    ensures Sorted(Sort(s, rank), rank)
  {
    if |s| > 0 {
      SortSorts(s[..|s| - 1], rank);
      InsertSorts(Sort(s[..|s| - 1], rank), s[|s| - 1], rank);
    }
  }

  lemma {:induction false} SortedIsFixed<T>(s: seq<T>, rank: T -> real)
    requires Sorted(s, rank)
    ensures Sort(s, rank) == s
  {
    if |s| > 0 {
      SortedIsFixed(s[..|s| - 1], rank);
      assert s == s[..|s| - 1] + [s[|s| - 1]];
    }
  }

  lemma {:induction false} FilterConcat<T>(a: seq<T>, b: seq<T>, keep: T -> bool)
    ensures Filter(a + b, keep) == Filter(a, keep) + Filter(b, keep)
  {
    if |b| == 0 {
      assert a + b == a;
    } else {
      assert (a + b)[..|a + b| - 1] == a + b[..|b| - 1];
      FilterConcat(a, b[..|b| - 1], keep);
    }
  }

  lemma {:induction false} FilterMembers<T(!new)>(s: seq<T>, keep: T -> bool)
    ensures forall x :: x in Filter(s, keep) <==> x in s && keep(x)
  {
    if |s| > 0 {
      FilterMembers(s[..|s| - 1], keep);
      assert s == s[..|s| - 1] + [s[|s| - 1]];
    }
  }

  lemma FilterOne<T>(x: T, keep: T -> bool)
    ensures Filter([x], keep) == if keep(x) then [x] else []
  {
    assert [x][..0] == [];
  }

  lemma {:induction false} FilterTwice<T>(s: seq<T>, p: T -> bool, q: T -> bool)
    ensures Filter(Filter(s, p), q) == Filter(s, x => p(x) && q(x))
  {
    if |s| > 0 {
      var front, last := s[..|s| - 1], s[|s| - 1];
      FilterTwice(front, p, q);
      if p(last) {
        FilterConcat(Filter(front, p), [last], q);
        assert Filter([last], q) == if q(last) then [last] else [];
      } else {
        assert Filter(front, p) + [] == Filter(front, p);
      }
    }
  }

  /** Filters that agree on the sequence select the same subsequence. */
  lemma {:induction false} FilterAgree<T(!new)>(s: seq<T>, p: T -> bool, q: T -> bool)
    requires forall x :: x in s ==> p(x) == q(x)
    ensures Filter(s, p) == Filter(s, q)
  {
    if |s| > 0 {
      assert s[|s| - 1] in s;
      assert forall x :: x in s[..|s| - 1] ==> x in s;
      FilterAgree(s[..|s| - 1], p, q);
    }
  }

  lemma {:induction false} FilterAll<T(!new)>(s: seq<T>, keep: T -> bool)
    requires forall x :: x in s ==> keep(x)
    ensures Filter(s, keep) == s
  {
    if |s| > 0 {
      assert s[|s| - 1] in s;
      assert forall x :: x in s[..|s| - 1] ==> x in s;
      FilterAll(s[..|s| - 1], keep);
      assert s == s[..|s| - 1] + [s[|s| - 1]];
    }
  }

  lemma {:induction false} FilterBelow<T>(s: seq<T>, rank: T -> real, keep: T -> bool, bound: real)
    requires Below(s, bound, rank)
    ensures Below(Filter(s, keep), bound, rank)
  {
    if |s| > 0 {
      var f := Filter(s[..|s| - 1], keep);
      assert (f + [s[|s| - 1]])[..|f|] == f && f + [] == f;
      FilterBelow(s[..|s| - 1], rank, keep, bound);
    }
  }

  lemma {:induction false} FilterInsert<T>(s: seq<T>, x: T, rank: T -> real, keep: T -> bool)
    requires Sorted(s, rank)
    ensures Filter(Insert(s, x, rank), keep)
         == if keep(x) then Insert(Filter(s, keep), x, rank) else Filter(s, keep)
  {
    if |s| == 0 {
      assert Insert(s, x, rank) == [x];
    } else if rank(s[|s| - 1]) <= rank(x) {
      FilterInsertLast(s, x, rank, keep);
    } else {
      var front, last := s[..|s| - 1], s[|s| - 1];
      var f := Filter(front, keep);
      FilterInsert(front, x, rank, keep);
      var t := Insert(front, x, rank);
      assert (t + [last])[..|t|] == t;
      assert (f + [last])[..|f|] == f && f + [] == f;
    }
  }

  lemma FilterInsertLast<T>(s: seq<T>, x: T, rank: T -> real, keep: T -> bool)
    requires |s| > 0 && Sorted(s, rank) && rank(s[|s| - 1]) <= rank(x)
    ensures Filter(Insert(s, x, rank), keep)
         == if keep(x) then Insert(Filter(s, keep), x, rank) else Filter(s, keep)
  {
    assert (s + [x])[..|s|] == s;
    BelowRises(s[..|s| - 1], rank(s[|s| - 1]), rank(x), rank);
    FilterBelow(s, rank, keep, rank(x));
    assert Filter(s, keep) + [] == Filter(s, keep);
  }

  /** Sorting and filtering commute, because the sort is stable. */
  lemma {:induction false} FilterSort<T>(s: seq<T>, rank: T -> real, keep: T -> bool)
    ensures Filter(Sort(s, rank), keep) == Sort(Filter(s, keep), rank)
  {
    if |s| > 0 {
      var front, last := s[..|s| - 1], s[|s| - 1];
      FilterSort(front, rank, keep);
      SortSorts(front, rank);
      FilterInsert(Sort(front, rank), last, rank, keep);
      var f := Filter(front, keep);
      assert (f + [last])[..|f|] == f && f + [] == f;
    }
  }

  lemma {:induction false} LevelSorted<T>(s: seq<T>, rank: T -> real, r: real)
    ensures Below(Filter(s, x => rank(x) == r), r, rank)
    ensures Sorted(Filter(s, x => rank(x) == r), rank)
  {
    if |s| > 0 {
      var f := Filter(s[..|s| - 1], x => rank(x) == r);
      assert (f + [s[|s| - 1]])[..|f|] == f && f + [] == f;
      LevelSorted(s[..|s| - 1], rank, r);
    }
  }

  /** Entries of one rank keep their order: this and sortedness determine the result. */
  lemma SortIsStable<T>(s: seq<T>, rank: T -> real, r: real)
    ensures Filter(Sort(s, rank), x => rank(x) == r) == Filter(s, x => rank(x) == r)
  {
    FilterSort(s, rank, x => rank(x) == r);
    LevelSorted(s, rank, r);
    SortedIsFixed(Filter(s, x => rank(x) == r), rank);
  }

  lemma {:induction false} SortAppend<T>(a: seq<T>, b: seq<T>, rank: T -> real)
    ensures Sort(Sort(a, rank) + b, rank) == Sort(a + b, rank)
  {
    if |b| == 0 {
      SortSorts(a, rank);
      SortedIsFixed(Sort(a, rank), rank);
      assert Sort(a, rank) + b == Sort(a, rank);
      assert a + b == a;
    } else {
      SortAppend(a, b[..|b| - 1], rank);
      assert (Sort(a, rank) + b)[..|Sort(a, rank) + b| - 1] == Sort(a, rank) + b[..|b| - 1];
      assert (a + b)[..|a + b| - 1] == a + b[..|b| - 1];
    }
  }

  lemma {:induction false} InsertSwap<T>(s: seq<T>, x: T, y: T, rank: T -> real)
    requires rank(x) < rank(y)
    ensures Insert(Insert(s, x, rank), y, rank) == Insert(Insert(s, y, rank), x, rank)
  {
    if |s| == 0 {
      assert Insert([y], x, rank) == Insert([], x, rank) + [y] by { assert [y][..0] == []; }
    } else {
      var front, last := s[..|s| - 1], s[|s| - 1];
      if rank(last) <= rank(x) {
        var sy := s + [y];
        assert sy[..|sy| - 1] == s;
        assert Insert(sy, x, rank) == s + [x] + [y];
      } else if rank(last) <= rank(y) {
        var sx := Insert(front, x, rank) + [last];
        var sy := s + [y];
        assert sy[..|sy| - 1] == s;
      } else {
        InsertSwap(front, x, y, rank);
        var ix, iy := Insert(front, x, rank), Insert(front, y, rank);
        assert (ix + [last])[..|ix|] == ix;
        assert (iy + [last])[..|iy|] == iy;
      }
    }
  }

  /** Two entries of different rank may be appended in either order. */
  lemma SortSwap<T>(s: seq<T>, x: T, y: T, rank: T -> real)
    requires rank(x) != rank(y)
    ensures Sort(s + [x] + [y], rank) == Sort(s + [y] + [x], rank)
  {
    assert (s + [x] + [y])[..|s| + 1] == s + [x] && (s + [x])[..|s|] == s;
    assert (s + [y] + [x])[..|s| + 1] == s + [y] && (s + [y])[..|s|] == s;
    if rank(x) < rank(y) {
      InsertSwap(Sort(s, rank), x, y, rank);
    } else {
      InsertSwap(Sort(s, rank), y, x, rank);
    }
  }

  /** Keep some entries, append fresh ones, sort: how a list owned by several writers is rewritten by one. */
  function Replace<T>(s: seq<T>, keep: T -> bool, own: seq<T>, rank: T -> real): seq<T> {
    Sort(Filter(s, keep) + own, rank)
  }

  lemma FilterReplaced<T>(s: seq<T>, keep: T -> bool, own: seq<T>, rank: T -> real, also: T -> bool)
    ensures Filter(Replace(s, keep, own, rank), also)
         == Sort(Filter(Filter(s, keep), also) + Filter(own, also), rank)
  {
    FilterSort(Filter(s, keep) + own, rank, also);
    FilterConcat(Filter(s, keep), own, also);
  }

  /** A writer that drops its own old entries rewrites its own output identically. */
  lemma ReplaceTwice<T(!new)>(s: seq<T>, keep: T -> bool, own: seq<T>, rank: T -> real)
    requires Filter(own, keep) == []
    ensures Replace(Replace(s, keep, own, rank), keep, own, rank) == Replace(s, keep, own, rank)
  {
    FilterReplaced(s, keep, own, rank, keep);
    FilterMembers(s, keep);
    FilterAll(Filter(s, keep), keep);
    assert Filter(s, keep) + [] == Filter(s, keep);
    SortAppend(Filter(s, keep), own, rank);
  }

  lemma FilterCommutes<T(!new)>(s: seq<T>, p: T -> bool, q: T -> bool)
    ensures Filter(Filter(s, p), q) == Filter(Filter(s, q), p)
  {
    FilterTwice(s, p, q);
    FilterTwice(s, q, p);
    FilterAgree(s, x => p(x) && q(x), x => q(x) && p(x));
  }

  lemma SwapTails<T>(s: seq<T>, a: seq<T>, b: seq<T>, rank: T -> real)
    requires |a| <= 1 && |b| <= 1
    requires |a| == 1 && |b| == 1 ==> rank(a[0]) != rank(b[0])
    ensures Sort(s + a + b, rank) == Sort(s + b + a, rank)
  {
    if |a| == 1 && |b| == 1 {
      SortSwap(s, a[0], b[0], rank);
      assert a == [a[0]] && b == [b[0]];
    } else {
      assert s + a + b == s + b + a;
    }
  }

  /** Two writers of one entry each that keep the other's entry may go in either order. */
  lemma ReplaceCommutes<T(!new)>(s: seq<T>, p: T -> bool, a: seq<T>, q: T -> bool, b: seq<T>, rank: T -> real)
    requires Filter(a, q) == a && Filter(b, p) == b
    requires |a| <= 1 && |b| <= 1
    requires |a| == 1 && |b| == 1 ==> rank(a[0]) != rank(b[0])
    ensures Replace(Replace(s, p, a, rank), q, b, rank) == Replace(Replace(s, q, b, rank), p, a, rank)
  {
    FilterReplaced(s, p, a, rank, q);
    FilterReplaced(s, q, b, rank, p);
    FilterCommutes(s, p, q);
    var both := Filter(Filter(s, p), q);
    SortAppend(both + a, b, rank);
    SortAppend(both + b, a, rank);
    SwapTails(both, a, b, rank);
  }

  lemma ReplaceFilter<T(!new)>(s: seq<T>, keep: T -> bool, own: seq<T>, rank: T -> real, also: T -> bool)
    requires Filter(own, also) == own
    ensures Replace(Filter(s, also), keep, own, rank) == Filter(Replace(s, keep, own, rank), also)
  {
    FilterReplaced(s, keep, own, rank, also);
    FilterCommutes(s, keep, also);
  }

  /** Among the entries of its rank, the writer's fresh entry comes last. */
  lemma ReplacePutsLast<T>(s: seq<T>, keep: T -> bool, x: T, rank: T -> real)
    ensures var tied := Filter(Replace(s, keep, [x], rank), y => rank(y) == rank(x));
            |tied| > 0 && tied[|tied| - 1] == x
  {
    SortIsStable(Filter(s, keep) + [x], rank, rank(x));
    FilterConcat(Filter(s, keep), [x], y => rank(y) == rank(x));
  }

  /** So two writers whose entries tie can only both be content with the same entry. */
  lemma ReplaceTie<T(!new)>(s: seq<T>, p: T -> bool, x: T, q: T -> bool, y: T, rank: T -> real)
    requires Replace(s, p, [x], rank) == s == Replace(s, q, [y], rank)
    requires rank(x) == rank(y)
    ensures x == y
  {
    ReplacePutsLast(s, p, x, rank);
    ReplacePutsLast(s, q, y, rank);
    FilterAgree(s, z => rank(z) == rank(x), z => rank(z) == rank(y));
  }
}
