/** The history page's pure helpers and its statistics loop: the summary
    preview (app.py:468), the grid of cards three to a row (app.py:541-543)
    and the count of reports per file extension (app.py:572-576). */
module History {
  import opened Seqs
  import opened Text

  const PreviewLength := 300
  const Ellipsis := "..."

  /** A summary longer than 300 characters is cut to its first 300 and
      gets "..." appended; a shorter one is shown whole. */
  function Preview(summary: string): (r: string)
    ensures |summary| <= PreviewLength ==> r == summary
    ensures |summary| > PreviewLength ==> |r| == PreviewLength + 3 && r[..PreviewLength] == summary[..PreviewLength] && r[PreviewLength..] == Ellipsis
  {
    if |summary| > PreviewLength then summary[..PreviewLength] + Ellipsis else summary
  }

  /** A preview is never longer than 303 characters, and previewing a
      preview changes nothing. */
  lemma PreviewIsStable(summary: string)
    ensures |Preview(summary)| <= PreviewLength + 3
    ensures Preview(Preview(summary)) == Preview(summary)
  {
    var r := Preview(summary);
    if |summary| > PreviewLength {
      assert r[..PreviewLength] + Ellipsis == r;
    }
  }

  const GridWidth := 3

  /** The cards cut into consecutive rows of three, the last one shorter. */
  function GridRows<T>(xs: seq<T>): (rows: seq<seq<T>>)
    ensures |rows| == (|xs| + GridWidth - 1) / GridWidth
  {
    seq((|xs| + GridWidth - 1) / GridWidth,
      k requires 0 <= k < (|xs| + GridWidth - 1) / GridWidth =>
        xs[GridWidth * k..if GridWidth * k + GridWidth <= |xs| then GridWidth * k + GridWidth else |xs|])
  }

  function Flatten<T>(rows: seq<seq<T>>): seq<T> {
    if rows == [] then [] else rows[0] + Flatten(rows[1..])
  }

  /** The first row holds the first three cards and the rest of the grid
      is the grid of the remaining cards. */
  lemma GridRowsStep<T>(xs: seq<T>)
    requires |xs| > GridWidth
    ensures GridRows(xs) == [xs[..GridWidth]] + GridRows(xs[GridWidth..])
  {
    var rows := GridRows(xs);
    var rest := GridRows(xs[GridWidth..]);
    assert |rows| == 1 + |rest|;
    forall k | 0 <= k < |rest| ensures rows[k + 1] == rest[k] {
      var lo := GridWidth * k;
      var hi := if lo + GridWidth <= |xs| - GridWidth then lo + GridWidth else |xs| - GridWidth;
      assert rest[k] == xs[GridWidth..][lo..hi];
      SliceOfSuffix(xs, GridWidth, lo, hi);
      assert rows[k + 1] == xs[lo + GridWidth..hi + GridWidth];
    }
  }

  /** A slice of a suffix is the slice of the whole shifted by the suffix's start. */
  lemma SliceOfSuffix<T>(xs: seq<T>, d: nat, lo: nat, hi: nat)
    requires lo <= hi && d + hi <= |xs|
    ensures xs[d..][lo..hi] == xs[lo + d..hi + d]
  {
  }

  /** Reading the grid row by row meets every card once, in list order. */
  lemma {:induction false} GridRowsFlatten<T>(xs: seq<T>)
    ensures Flatten(GridRows(xs)) == xs
    decreases |xs|
  {
    if |xs| > GridWidth {
      GridRowsStep(xs);
      GridRowsFlatten(xs[GridWidth..]);
      assert [xs[..GridWidth]] + GridRows(xs[GridWidth..]) != [];
      assert ([xs[..GridWidth]] + GridRows(xs[GridWidth..]))[1..] == GridRows(xs[GridWidth..]);
      assert xs[..GridWidth] + xs[GridWidth..] == xs;
    } else if xs != [] {
      assert |GridRows(xs)| == 1 && GridRows(xs)[0] == xs[0..|xs|];
      assert xs[0..|xs|] == xs;
      assert GridRows(xs) == [xs];
      assert [xs][1..] == [];
    } else {
      assert GridRows(xs) == [];
    }
  }

  /** Every row holds one to three cards, and only the last may hold
      fewer than three. */
  lemma GridRowsSizes<T>(xs: seq<T>)
    ensures var rows := GridRows(xs);
      && (forall k :: 0 <= k < |rows| ==> 1 <= |rows[k]| <= GridWidth)
      && (forall k :: 0 <= k < |rows| - 1 ==> |rows[k]| == GridWidth)
  {
  }

  /** The text after the last '.', or all of `s` when it has none. */
  function AfterLastDot(s: string): (r: string)
    ensures |r| <= |s| && r == s[|s| - |r|..]
    ensures '.' !in r
    ensures '.' in s ==> s[|s| - |r| - 1] == '.'
  {
    if s == [] then []
    else if s[|s| - 1] == '.' then []
    else
      var r := AfterLastDot(s[..|s| - 1]);
      assert '.' in s ==> '.' in s[..|s| - 1];
      r + [s[|s| - 1]]
  }

  /** A file's type: the text after its last dot, lowercased, or
      "unknown" when the name has no dot. */
  function ExtensionOf(filename: string): (r: string)
    ensures '.' in filename ==> |r| < |filename|
    ensures '.' !in filename ==> r == "unknown"
  {
    if '.' in filename then Lower(AfterLastDot(filename)) else "unknown"
  }

  /** A name with a dot is counted under the lowercased text after its
      last dot, which holds no dot; a name without one under "unknown". */
  lemma ExtensionOfSpec(filename: string)
    ensures '.' !in filename ==> ExtensionOf(filename) == "unknown"
    ensures '.' in filename ==>
      exists i :: 0 <= i < |filename| && filename[i] == '.' && '.' !in filename[i + 1..] && ExtensionOf(filename) == Lower(filename[i + 1..])
    ensures '.' in filename ==> '.' !in ExtensionOf(filename)
  {
    if '.' in filename {
      var r := AfterLastDot(filename);
      var i := |filename| - |r| - 1;
      assert filename[i + 1..] == r;
      var e := ExtensionOf(filename);
      forall k | 0 <= k < |e| ensures e[k] != '.' {
        assert r[k] != '.';
      }
    }
  }

  function Extensions(filenames: seq<string>): (r: seq<string>)
    ensures |r| == |filenames| && forall i :: 0 <= i < |filenames| ==> r[i] == ExtensionOf(filenames[i])
  {
    seq(|filenames|, i requires 0 <= i < |filenames| => ExtensionOf(filenames[i]))
  }

  /** The counts of `names`, added up. */
  function SumCounts(names: seq<string>, counts: map<string, nat>): nat {
    if names == [] then 0
    else (if names[0] in counts then counts[names[0]] else 0) + SumCounts(names[1..], counts)
  }

  lemma {:induction false} SumCountsAppend(names: seq<string>, e: string, counts: map<string, nat>)
    ensures SumCounts(names + [e], counts) == SumCounts(names, counts) + (if e in counts then counts[e] else 0)
  {
    if names != [] {
      assert (names + [e])[1..] == names[1..] + [e];
      SumCountsAppend(names[1..], e, counts);
    }
  }

  /** Changing the count of a name not listed leaves the sum alone. */
  lemma {:induction false} SumCountsUnlisted(names: seq<string>, counts: map<string, nat>, e: string, v: nat)
    requires e !in names
    ensures SumCounts(names, counts[e := v]) == SumCounts(names, counts)
  {
    if names != [] {
      SumCountsUnlisted(names[1..], counts, e, v);
    }
  }

  /** Adding one to the count of a name listed once adds one to the sum. */
  lemma {:induction false} SumCountsIncrement(names: seq<string>, counts: map<string, nat>, e: string)
    requires Distinct(names) && e in names && e in counts
    ensures SumCounts(names, counts[e := counts[e] + 1]) == SumCounts(names, counts) + 1
  {
    if names[0] == e {
      assert e !in names[1..];
      SumCountsUnlisted(names[1..], counts, e, counts[e] + 1);
    } else {
      SumCountsIncrement(names[1..], counts, e);
    }
  }

  /** `names` and `counts` tally the extensions `exts`: the distinct
      extensions in order of first appearance, each with its number of
      occurrences. */
  ghost predicate Tally(exts: seq<string>, names: seq<string>, counts: map<string, nat>) {
    && names == Dedup(exts)
    && (forall e :: e in counts <==> e in exts)
    && (forall e :: e in counts ==> counts[e] == multiset(exts)[e])
    && SumCounts(names, counts) == |exts|
  }

  /** One more extension already seen: its count goes up by one. */
  lemma TallyKnown(all: seq<string>, i: nat, names: seq<string>, counts: map<string, nat>)
    requires i < |all| && Tally(all[..i], names, counts) && all[i] in counts
    ensures Tally(all[..i + 1], names, counts[all[i] := counts[all[i]] + 1])
  {
    var exts, ext := all[..i], all[i];
    var next := exts + [ext];
    assert all[..i + 1] == next;
    assert next[..|exts|] == exts;
    assert ext in names;
    assert Dedup(next) == names;
    CountsKnown(exts, ext, counts);
    SumCountsIncrement(names, counts, ext);
    assert SumCounts(names, counts[ext := counts[ext] + 1]) == |next|;
  }

  /** One more extension not seen before: it is appended with count 1. */
  lemma TallyNew(all: seq<string>, i: nat, names: seq<string>, counts: map<string, nat>)
    requires i < |all| && Tally(all[..i], names, counts) && all[i] !in counts
    ensures Tally(all[..i + 1], names + [all[i]], counts[all[i] := 1])
  {
    var exts, ext := all[..i], all[i];
    assert all[..i + 1] == exts + [ext];
    assert (exts + [ext])[..|exts|] == exts;
    CountsNew(exts, ext, counts);
    assert ext !in names;
    SumCountsNew(names, counts, ext);
  }

  /** The counts after one more occurrence of a known extension. */
  lemma CountsKnown(exts: seq<string>, ext: string, counts: map<string, nat>)
    requires ext in counts
    requires forall e :: e in counts <==> e in exts
    requires forall e :: e in counts ==> counts[e] == multiset(exts)[e]
    ensures forall e :: e in counts[ext := counts[ext] + 1] <==> e in exts + [ext]
    ensures forall e :: e in counts[ext := counts[ext] + 1] ==>
      counts[ext := counts[ext] + 1][e] == multiset(exts + [ext])[e]
  {
    assert multiset(exts + [ext]) == multiset(exts) + multiset{ext};
  }

  /** The counts after the first occurrence of an extension. */
  lemma CountsNew(exts: seq<string>, ext: string, counts: map<string, nat>)
    requires ext !in counts
    requires forall e :: e in counts <==> e in exts
    requires forall e :: e in counts ==> counts[e] == multiset(exts)[e]
    ensures forall e :: e in counts[ext := 1] <==> e in exts + [ext]
    ensures forall e :: e in counts[ext := 1] ==> counts[ext := 1][e] == multiset(exts + [ext])[e]
  {
    assert multiset(exts + [ext]) == multiset(exts) + multiset{ext};
    assert multiset(exts)[ext] == 0;
  }

  lemma SumCountsNew(names: seq<string>, counts: map<string, nat>, e: string)
    requires e !in names
    ensures SumCounts(names + [e], counts[e := 1]) == SumCounts(names, counts) + 1
  {
    SumCountsUnlisted(names, counts, e, 1);
    SumCountsAppend(names, e, counts[e := 1]);
  }

  /** The statistics loop: the extensions in order of first appearance
      (the pie's labels), and how many reports carry each (its values). */
  method CountExtensions(filenames: seq<string>) returns (names: seq<string>, counts: map<string, nat>)
    ensures names == Dedup(Extensions(filenames))
    ensures forall e :: e in counts <==> e in Extensions(filenames)
    ensures forall e :: e in counts ==> counts[e] == multiset(Extensions(filenames))[e]
    ensures SumCounts(names, counts) == |filenames|
  {
    ghost var exts := Extensions(filenames);
    names := [];
    counts := map[];
    for i := 0 to |filenames|
      invariant Tally(exts[..i], names, counts)
    {
      var ext := ExtensionOf(filenames[i]);
      if ext in counts {
        TallyKnown(exts, i, names, counts);
        counts := counts[ext := counts[ext] + 1];
      } else {
        TallyNew(exts, i, names, counts);
        counts := counts[ext := 1];
        names := names + [ext];
      }
    }
    assert exts[..|filenames|] == exts;
    assert Tally(exts, names, counts);
  }
}
