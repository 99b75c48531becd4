/** Generic sequence helpers shared by the column-selection logic. */
module Seqs {
  import opened Wrappers

  /** No element occurs twice. */
  predicate Distinct<T(==)>(s: seq<T>) {
    forall i, j :: 0 <= i < j < |s| ==> s[i] != s[j]
  }

  /** The elements of `s` that satisfy `keep`, in their order in `s`
      (a list built by appending inside a `for` loop). */
  function Filter<T>(s: seq<T>, keep: T -> bool): (r: seq<T>)
    ensures |r| <= |s|
    ensures forall i :: 0 <= i < |r| ==> r[i] in s && keep(r[i])
    ensures forall i :: 0 <= i < |s| && keep(s[i]) ==> s[i] in r
  {
    if s == [] then []
    else Filter(s[..|s| - 1], keep) + (if keep(s[|s| - 1]) then [s[|s| - 1]] else [])
  }

  /** Python's `next((x for x in s if keep(x)), None)`. */
  function FirstWhere<T>(s: seq<T>, keep: T -> bool): (r: Option<T>)
    ensures r.Some? ==> r.value in s && keep(r.value)
    ensures r.None? <==> forall i :: 0 <= i < |s| ==> !keep(s[i])
  {
    if s == [] then None
    else if keep(s[0]) then Some(s[0])
    else FirstWhere(s[1..], keep)
  }

  /** `FirstWhere` picks the element at the first index that satisfies `keep`. */
  lemma {:induction false} FirstWhereAt<T>(s: seq<T>, keep: T -> bool, i: nat)
    requires i < |s| && keep(s[i])
    requires forall j :: 0 <= j < i ==> !keep(s[j])
    ensures FirstWhere(s, keep) == Some(s[i])
  {
    if i > 0 {
      assert s[1..][i - 1] == s[i];
      forall j | 0 <= j < i - 1 ensures !keep(s[1..][j]) {
        assert s[1..][j] == s[j + 1];
      }
      FirstWhereAt(s[1..], keep, i - 1);
    }
  }

  /** Two tests that agree on every element pick the same first element. */
  lemma {:induction false} FirstWhereCongruent<T>(s: seq<T>, p: T -> bool, q: T -> bool)
    requires forall i :: 0 <= i < |s| ==> p(s[i]) == q(s[i])
    ensures FirstWhere(s, p) == FirstWhere(s, q)
  {
    if s != [] {
      forall i | 0 <= i < |s| - 1 ensures p(s[1..][i]) == q(s[1..][i]) { assert s[1..][i] == s[i + 1]; }
      FirstWhereCongruent(s[1..], p, q);
    }
  }

  /** The element `FirstWhere` finds sits at an index before which nothing passes. */
  lemma {:induction false} FirstWhereIndex<T>(s: seq<T>, keep: T -> bool) returns (i: nat)
    requires FirstWhere(s, keep).Some?
    ensures i < |s| && s[i] == FirstWhere(s, keep).value
    ensures forall j :: 0 <= j < i ==> !keep(s[j])
  {
    if keep(s[0]) {
      i := 0;
    } else {
      var k := FirstWhereIndex(s[1..], keep);
      i := k + 1;
      forall j | 0 <= j < i ensures !keep(s[j]) {
        if j > 0 { assert s[j] == s[1..][j - 1]; }
      }
    }
  }

  /** Filtering keeps first the element `FirstWhere` finds, and keeps
      nothing exactly when `FirstWhere` finds nothing. */
  lemma {:induction false} FilterStartsWithFirstWhere<T>(s: seq<T>, keep: T -> bool)
    ensures Filter(s, keep) == [] <==> FirstWhere(s, keep).None?
    ensures Filter(s, keep) != [] ==> FirstWhere(s, keep) == Some(Filter(s, keep)[0])
  {
    if s != [] {
      var n := |s| - 1;
      var p := s[..n];
      FilterStartsWithFirstWhere(p, keep);
      if Filter(p, keep) != [] {
        var i := FirstWhereIndex(p, keep);
        assert p[i] == s[i];
        forall j | 0 <= j < i ensures !keep(s[j]) { assert p[j] == s[j]; }
        FirstWhereAt(s, keep, i);
      } else {
        forall j | 0 <= j < n ensures !keep(s[j]) { assert p[j] == s[j]; }
        if keep(s[n]) {
          FirstWhereAt(s, keep, n);
        }
      }
    }
  }

  /** The index of the first occurrence of `x` in `s`. */
  function IndexOf<T(==)>(s: seq<T>, x: T): (i: nat)
    requires x in s
    ensures i < |s| && s[i] == x && x !in s[..i]
  {
    if s[0] == x then 0
    else
      var k := IndexOf(s[1..], x);
      assert s[..k + 1] == [s[0]] + s[1..][..k];
      k + 1
  }

  /** `s` with duplicates removed, keeping each element where it first
      appears (how a table's columns are discovered from its rows). */
  function Dedup<T(==)>(s: seq<T>): (r: seq<T>)
    ensures Distinct(r)
    ensures forall i :: 0 <= i < |r| ==> r[i] in s
    ensures forall i :: 0 <= i < |s| ==> s[i] in r
    ensures |r| <= |s|
  {
    if s == [] then []
    else
      var d := Dedup(s[..|s| - 1]);
      if s[|s| - 1] in d then d else d + [s[|s| - 1]]
  }

  /** A sequence without repetition is its own deduplication. */
  lemma {:induction false} DedupOfDistinct<T>(s: seq<T>)
    requires Distinct(s)
    ensures Dedup(s) == s
  {
    if s != [] {
      var p := s[..|s| - 1];
      assert Distinct(p);
      DedupOfDistinct(p);
      assert s[|s| - 1] !in p;
      assert s == p + [s[|s| - 1]];
    }
  }

  /** `IndexOf` on a prefix agrees with `IndexOf` on the whole sequence. */
  lemma {:induction false} IndexOfPrefix<T>(s: seq<T>, n: nat, x: T)
    requires n <= |s| && x in s[..n]
    ensures IndexOf(s[..n], x) == IndexOf(s, x)
  {
    var a := IndexOf(s[..n], x);
    assert s[..n][a] == s[a] && s[..n][..a] == s[..a];
  }

  /** Dedup keeps elements in the order of their first appearance. */
  lemma {:induction false} DedupFirstAppearance<T>(s: seq<T>)
    ensures forall a, b :: 0 <= a < b < |Dedup(s)| ==> IndexOf(s, Dedup(s)[a]) < IndexOf(s, Dedup(s)[b])
  {
    if s != [] {
      var n := |s| - 1;
      var p := s[..n];
      DedupFirstAppearance(p);
      var d := Dedup(p);
      forall x | x in d ensures x in p && IndexOf(p, x) == IndexOf(s, x) && IndexOf(s, x) < n {
        IndexOfPrefix(s, n, x);
      }
      if s[n] in d {
        assert Dedup(s) == d;
      } else {
        assert Dedup(s) == d + [s[n]];
        assert s[n] !in s[..n];
        assert IndexOf(s, s[n]) == n;
      }
    }
  }

  /** Dropping the one element that fails `keep` leaves the elements
      before it followed by the elements after it. */
  lemma {:induction false} FilterRemovesOne<T>(s: seq<T>, keep: T -> bool, k: nat)
    requires k < |s| && !keep(s[k])
    requires forall j :: 0 <= j < |s| && j != k ==> keep(s[j])
    ensures Filter(s, keep) == s[..k] + s[k + 1..]
  {
    var n := |s| - 1;
    var p := s[..n];
    if k < n {
      assert !keep(p[k]) && forall j :: 0 <= j < |p| && j != k ==> keep(p[j]) by {
        forall j | 0 <= j < |p| ensures p[j] == s[j] { }
      }
      FilterRemovesOne(p, keep, k);
      assert keep(s[n]);
      FilterKeepsLast(s, keep, k);
    } else {
      FilterDropsLast(s, keep);
    }
  }

  /** The step of `FilterRemovesOne` for a removed element before a kept last one. */
  lemma FilterKeepsLast<T>(s: seq<T>, keep: T -> bool, k: nat)
    requires k < |s| - 1 && keep(s[|s| - 1])
    requires Filter(s[..|s| - 1], keep) == s[..|s| - 1][..k] + s[..|s| - 1][k + 1..]
    ensures Filter(s, keep) == s[..k] + s[k + 1..]
  {
    RemoveBeforeLast(s, k);
  }

  /** When only the last element fails, filtering drops just that one. */
  lemma FilterDropsLast<T>(s: seq<T>, keep: T -> bool)
    requires |s| > 0 && !keep(s[|s| - 1])
    requires forall j :: 0 <= j < |s| - 1 ==> keep(s[j])
    ensures Filter(s, keep) == s[..|s| - 1]
  {
    var p := s[..|s| - 1];
    forall i | 0 <= i < |p| ensures keep(p[i]) { assert p[i] == s[i]; }
    FilterKeepsAll(p, keep);
  }

  /** Removing an element before the last one commutes with dropping the last one. */
  lemma RemoveBeforeLast<T>(s: seq<T>, k: nat)
    requires k < |s| - 1
    ensures s[..k] + s[k + 1..] == (s[..|s| - 1][..k] + s[..|s| - 1][k + 1..]) + [s[|s| - 1]]
  {
    var p := s[..|s| - 1];
    assert p[..k] == s[..k];
    SliceSnoc(s, k + 1);
  }

  /** A non-empty suffix is its prefix without the last element, then that element. */
  lemma SliceSnoc<T>(s: seq<T>, i: nat)
    requires i < |s|
    ensures s[..|s| - 1][i..] + [s[|s| - 1]] == s[i..]
  {
    assert s[i..] == s[i..|s| - 1] + [s[|s| - 1]];
  }

  /** When every element passes, filtering keeps the sequence as it is. */
  lemma {:induction false} FilterKeepsAll<T>(s: seq<T>, keep: T -> bool)
    requires forall i :: 0 <= i < |s| ==> keep(s[i])
    ensures Filter(s, keep) == s
  {
    if s != [] {
      var p := s[..|s| - 1];
      forall i | 0 <= i < |p| ensures keep(p[i]) { assert p[i] == s[i]; }
      FilterKeepsAll(p, keep);
    }
  }
}
