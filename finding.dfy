/**
 * The colonoscopy `Finding` record of the finding builder: a polyp count,
 * sizes in mm, locations, whether the polyp was removed, and a depth; its
 * derived size, location and length, the split into one finding per polyp,
 * and the merge of two findings that may describe the same polyps.
 */
module Findings {
  import opened Wrappers
  import opened Text
  import opened Utils

  datatype Finding = Finding(count: int, sizes: seq<real>, locations: seq<Segment>, removal: bool, depth: int)

  /** `Finding()`: everything zero or empty. */
  const Blank: Finding := Finding(0, [], [], false, 0)

  /** `max(s)` of a non-empty sequence. */
  function MaxOf(s: seq<real>): (r: real)
    requires s != []
    ensures r in s && forall k :: 0 <= k < |s| ==> s[k] <= r
  {
    if |s| == 1 then s[0]
    else
      var m := MaxOf(s[1..]);
      assert forall k :: 1 <= k < |s| ==> s[k] == s[1..][k - 1];
      if s[0] >= m then s[0] else m
  }

  /** `size`: the largest size, 0 without sizes. */
  function Size(f: Finding): (r: real)
    ensures f.sizes == [] ==> r == 0.0
    ensures f.sizes != [] ==> r in f.sizes && forall k :: 0 <= k < |f.sizes| ==> f.sizes[k] <= r
  {
    if f.sizes == [] then 0.0 else MaxOf(f.sizes)
  }

  /** `location`: the first location, None without locations. */
  function Location(f: Finding): (r: Option<Segment>)
    ensures r.None? <==> f.locations == []
    ensures r.Some? ==> r.value == f.locations[0]
  {
    if f.locations == [] then None else Some(f.locations[0])
  }

  /** `copy(location)`: one polyp at the given location; sizes, removal and depth are kept. */
  function Copy(f: Finding, location: Segment): (r: Finding)
    ensures r.count == 1 && r.locations == [location]
    ensures r.sizes == f.sizes && r.removal == f.removal && r.depth == f.depth
  {
    Finding(1, f.sizes, [location], f.removal, f.depth)
  }

  /** `bool(finding)`. */
  predicate Truthy(f: Finding) { f.count > 0 }

  /** The distinct values of a sequence (`set(s)`). */
  function Distinct<T>(s: seq<T>): set<T> { set x | x in s }

  /** `len(finding)`: the largest of the count, the number of sizes and the number of distinct locations. */
  function Len(f: Finding): (r: int)
    ensures r >= f.count && r >= |f.sizes| && r >= |Distinct(f.locations)|
    ensures r == f.count || r == |f.sizes| || r == |Distinct(f.locations)|
  {
    var n := |Distinct(f.locations)|;
    if f.count >= |f.sizes| && f.count >= n then f.count
    else if |f.sizes| >= n then |f.sizes|
    else n
  }

  // ---------------------------------------------------------------- split

  /** `s[-1:]`: the last element, or nothing. */
  function LastOne<T>(s: seq<T>): (r: seq<T>)
    ensures s == [] ==> r == []
    ensures s != [] ==> r == [s[|s| - 1]]
  {
    if s == [] then [] else [s[|s| - 1]]
  }

  /**
   * The number of rows `zip_longest(range(count), sizes, locations)` yields:
   * the longest of the three; locations are counted with repetitions here.
   */
  function Rows(f: Finding): (r: nat)
    ensures r >= f.count && r >= |f.sizes| && r >= |f.locations|
    ensures r == |f.sizes| || r == |f.locations| || r == f.count
  {
    var c := if f.count > 0 then f.count else 0;
    if c >= |f.sizes| && c >= |f.locations| then c
    else if |f.sizes| >= |f.locations| then |f.sizes|
    else |f.locations|
  }

  /** The i-th row of the split: one polyp with the i-th size and location, or the last ones once they run out. */
  function Part(f: Finding, i: nat): Finding
  {
    Finding(1,
      if i < |f.sizes| then [f.sizes[i]] else LastOne(f.sizes),
      if i < |f.locations| then [f.locations[i]] else LastOne(f.locations),
      f.removal, 0)
  }

  /** `split()`: one finding per row when the finding is longer than one, else the finding itself. */
  function Split(f: Finding): (r: seq<Finding>)
    ensures Len(f) <= 1 ==> r == [f]
    ensures Len(f) > 1 ==> |r| == Rows(f) && forall i :: 0 <= i < |r| ==> r[i] == Part(f, i)
  {
    if Len(f) > 1 then seq(Rows(f), i requires 0 <= i => Part(f, i)) else [f]
  }

  lemma {:induction false} DistinctAtMost<T>(s: seq<T>)
    ensures |Distinct(s)| <= |s|
    decreases |s|
  {
    if s != [] {
      var init := s[..|s| - 1];
      DistinctAtMost(init);
      assert Distinct(s) == Distinct(init) + {s[|s| - 1]};
    }
  }

  lemma {:induction false} DistinctWithoutRepeats<T>(s: seq<T>)
    requires forall i, j :: 0 <= i < j < |s| ==> s[i] != s[j]
    ensures |Distinct(s)| == |s|
    decreases |s|
  {
    if s != [] {
      var init := s[..|s| - 1];
      DistinctWithoutRepeats(init);
      assert s[|s| - 1] !in Distinct(init);
      assert Distinct(s) == Distinct(init) + {s[|s| - 1]};
    }
  }

  /**
   * A split gives at least `len(finding)` findings, exactly that many when
   * the locations do not repeat, and the finding alone when it is not longer
   * than one.
   */
  lemma SplitLength(f: Finding)
    ensures |Split(f)| >= Len(f)
    ensures (forall i, j :: 0 <= i < j < |f.locations| ==> f.locations[i] != f.locations[j]) ==> |Split(f)| == if Len(f) > 1 then Len(f) else 1
  {
    DistinctAtMost(f.locations);
    if forall i, j :: 0 <= i < j < |f.locations| ==> f.locations[i] != f.locations[j] {
      DistinctWithoutRepeats(f.locations);
    }
  }

  /** A repeated location is one for `len` but two rows for the split. */
  lemma SplitCountsRepeats()
    ensures Len(Finding(0, [], [Sigmoid, Sigmoid, Rectum], false, 0)) == 2
    ensures |Split(Finding(0, [], [Sigmoid, Sigmoid, Rectum], false, 0))| == 3
  {
    var s := [Sigmoid, Sigmoid, Rectum];
    assert Distinct(s) == {Sigmoid, Rectum};
  }

  /** Every finding a split yields is a single truthy polyp that splits into itself. */
  lemma SplitPartsAreSingle(f: Finding, i: nat)
    requires i < |Split(f)| && Len(f) > 1
    ensures Split(f)[i].count == 1 && Truthy(Split(f)[i])
    ensures Len(Split(f)[i]) == 1 && Split(Split(f)[i]) == [Split(f)[i]]
    ensures Split(f)[i].removal == f.removal
  {
    var p := Split(f)[i];
    DistinctAtMost(p.locations);
  }

  /**
   * A split loses no size and invents none: every size of the finding is
   * the size of one of its rows, and every row's sizes come from the finding.
   * The same holds for locations.
   */
  lemma SplitKeepsSizesAndLocations(f: Finding)
    requires Len(f) > 1
    ensures forall k :: 0 <= k < |f.sizes| ==> Split(f)[k].sizes == [f.sizes[k]]
    ensures forall i, x :: 0 <= i < |Split(f)| && x in Split(f)[i].sizes ==> x in f.sizes
    ensures forall k :: 0 <= k < |f.locations| ==> Split(f)[k].locations == [f.locations[k]]
    ensures forall i, x :: 0 <= i < |Split(f)| && x in Split(f)[i].locations ==> x in f.locations
    ensures forall i :: 0 <= i < |Split(f)| ==> Size(Split(f)[i]) <= Size(f)
  {
  }

  // ---------------------------------------------------------------- merge

  /** `can_merge_findings`: two findings merge unless their counts, locations or depths conflict. */
  predicate CanMerge(f1: Finding, f2: Finding)
  {
    !(f1.count != f2.count && f1.count > 1 && f2.count > 1) &&
    !(f1.locations != [] && f2.locations != [] && f1.locations != f2.locations) &&
    !(f1.depth != 0 && f2.depth != 0 && f1.depth != f2.depth)
  }

  /** `merge_findings`. */
  function Merge(f1: Finding, f2: Finding): (r: Finding)
    ensures r.count == if f1.count >= f2.count then f1.count else f2.count
    ensures r.depth == if f1.depth >= f2.depth then f1.depth else f2.depth
    ensures r.removal == (f1.removal || f2.removal)
    ensures r.locations == f1.locations + f2.locations && r.sizes == f1.sizes + f2.sizes
  {
    Finding(if f1.count >= f2.count then f1.count else f2.count,
            f1.sizes + f2.sizes,
            f1.locations + f2.locations,
            f1.removal || f2.removal,
            if f1.depth >= f2.depth then f1.depth else f2.depth)
  }

  /** Whether two findings can merge does not depend on their order, and a finding merges with itself. */
  lemma CanMergeSymmetric(f1: Finding, f2: Finding)
    ensures CanMerge(f1, f2) <==> CanMerge(f2, f1)
    ensures CanMerge(f1, f1)
  {
  }

  /** Merging a run of findings gives the same finding however the merges are grouped. */
  lemma MergeAssociative(a: Finding, b: Finding, c: Finding)
    ensures Merge(Merge(a, b), c) == Merge(a, Merge(b, c))
  {
    assert (a.sizes + b.sizes) + c.sizes == a.sizes + (b.sizes + c.sizes);
    assert (a.locations + b.locations) + c.locations == a.locations + (b.locations + c.locations);
  }

  /** With sizes that are not negative, the merged size is the larger size. */
  lemma MergeSize(f1: Finding, f2: Finding)
    requires forall k :: 0 <= k < |f1.sizes| ==> f1.sizes[k] >= 0.0
    requires forall k :: 0 <= k < |f2.sizes| ==> f2.sizes[k] >= 0.0
    ensures Size(Merge(f1, f2)) == if Size(f1) >= Size(f2) then Size(f1) else Size(f2)
  {
    var s := Merge(f1, f2).sizes;
    assert forall k :: 0 <= k < |f1.sizes| ==> s[k] == f1.sizes[k];
    assert forall k :: 0 <= k < |f2.sizes| ==> s[|f1.sizes| + k] == f2.sizes[k];
    if s != [] {
      var m := Size(Merge(f1, f2));
      assert m in f1.sizes || m in f2.sizes;
    }
  }

  /** A merged finding is truthy when either part is. */
  lemma MergeTruthy(f1: Finding, f2: Finding)
    ensures Truthy(Merge(f1, f2)) <==> Truthy(f1) || Truthy(f2)
  {
  }

  // ---------------------------------------------------------------- merging a list

  /** The loop of `get_merged_findings` from a pending finding over the rest. */
  function MergeFrom(prev: Finding, rest: seq<Finding>): (r: seq<Finding>)
    ensures 1 <= |r| <= |rest| + 1
    decreases |rest|
  {
    if rest == [] then [prev]
    else if CanMerge(prev, rest[0]) then MergeFrom(Merge(prev, rest[0]), rest[1..])
    else [prev] + MergeFrom(rest[0], rest[1..])
  }

  /** `get_merged_findings()` on the stored findings. */
  function Merged(fs: seq<Finding>): (r: seq<Finding>)
    ensures |r| <= |fs|
    ensures r == [] <==> fs == []
  {
    if fs == [] then [] else MergeFrom(fs[0], fs[1..])
  }

  /** All sizes of a list of findings, in order. */
  function AllSizes(fs: seq<Finding>): seq<real>
  {
    if fs == [] then [] else fs[0].sizes + AllSizes(fs[1..])
  }

  /** All locations of a list of findings, in order. */
  function AllLocations(fs: seq<Finding>): seq<Segment>
  {
    if fs == [] then [] else fs[0].locations + AllLocations(fs[1..])
  }

  lemma {:induction false} MergeFromKeeps(prev: Finding, rest: seq<Finding>)
    ensures AllSizes(MergeFrom(prev, rest)) == prev.sizes + AllSizes(rest)
    ensures AllLocations(MergeFrom(prev, rest)) == prev.locations + AllLocations(rest)
    decreases |rest|
  {
    if rest != [] {
      MergeFromKeeps(Merge(prev, rest[0]), rest[1..]);
      MergeFromKeeps(rest[0], rest[1..]);
      if !CanMerge(prev, rest[0]) {
        var tail := MergeFrom(rest[0], rest[1..]);
        assert ([prev] + tail)[1..] == tail;
      }
    }
  }

  /** Merging loses no size and no location and keeps their order. */
  lemma MergedKeeps(fs: seq<Finding>)
    ensures AllSizes(Merged(fs)) == AllSizes(fs)
    ensures AllLocations(Merged(fs)) == AllLocations(fs)
  {
    if fs != [] {
      MergeFromKeeps(fs[0], fs[1..]);
    }
  }

  lemma {:induction false} MergeFromUnmergeable(prev: Finding, rest: seq<Finding>)
    requires rest != [] ==> !CanMerge(prev, rest[0])
    requires forall i :: 0 <= i < |rest| - 1 ==> !CanMerge(rest[i], rest[i + 1])
    ensures MergeFrom(prev, rest) == [prev] + rest
    decreases |rest|
  {
    if rest != [] {
      MergeFromUnmergeable(rest[0], rest[1..]);
      assert [rest[0]] + rest[1..] == rest;
    }
  }

  /** Only neighbours merge: when no two neighbours can merge, the list is returned as it is. */
  lemma MergedUnmergeable(fs: seq<Finding>)
    requires forall i :: 0 <= i < |fs| - 1 ==> !CanMerge(fs[i], fs[i + 1])
    ensures Merged(fs) == fs
  {
    if fs != [] {
      MergeFromUnmergeable(fs[0], fs[1..]);
      assert [fs[0]] + fs[1..] == fs;
    }
  }

  /** Two neighbours that can merge become one finding. */
  lemma MergedPair(f1: Finding, f2: Finding)
    ensures CanMerge(f1, f2) ==> Merged([f1, f2]) == [Merge(f1, f2)]
    ensures !CanMerge(f1, f2) ==> Merged([f1, f2]) == [f1, f2]
  {
    assert [f1, f2][1..] == [f2] && [f2][1..] == [];
    assert Merged([f1, f2]) == MergeFrom(f1, [f2]);
    if CanMerge(f1, f2) {
      assert MergeFrom(f1, [f2]) == MergeFrom(Merge(f1, f2), []);
    } else {
      assert MergeFrom(f1, [f2]) == [f1] + MergeFrom(f2, []);
    }
  }

  // ---------------------------------------------------------------- split_findings

  /** What `split_findings` keeps of one finding: itself, or a copy per location up to its count. */
  function CopiesOf(f: Finding): (r: seq<Finding>)
    ensures |f.locations| <= 1 ==> r == [f]
    ensures |f.locations| > 1 ==>
      (|r| == |Take(f.locations, f.count)| && forall i :: 0 <= i < |r| ==> r[i] == Copy(f, f.locations[i]))
  {
    if |f.locations| <= 1 then [f]
    else
      var locs := Take(f.locations, f.count);
      seq(|locs|, i requires 0 <= i < |locs| => Copy(f, locs[i]))
  }

  /** The locations beyond the count of a finding with several locations. */
  function ExtraOf(f: Finding): seq<Segment>
  {
    if |f.locations| <= 1 then [] else Drop(f.locations, f.count)
  }

  function Copies(fs: seq<Finding>): seq<Finding>
  {
    if fs == [] then [] else CopiesOf(fs[0]) + Copies(fs[1..])
  }

  function Extras(fs: seq<Finding>): seq<Segment>
  {
    if fs == [] then [] else ExtraOf(fs[0]) + Extras(fs[1..])
  }

  /**
   * For a finding with several locations, the copies take the locations up
   * to the count one each, and the extra locations are the rest: together
   * they are the finding's locations, in order.
   */
  lemma CopiesPartition(f: Finding)
    requires |f.locations| > 1
    ensures AllLocations(CopiesOf(f)) + ExtraOf(f) == f.locations
    ensures forall i :: 0 <= i < |CopiesOf(f)| ==> CopiesOf(f)[i].count == 1 && |CopiesOf(f)[i].locations| == 1
  {
    var locs := Take(f.locations, f.count);
    CopiesLocations(f, locs, CopiesOf(f));
  }

  lemma {:induction false} CopiesLocations(f: Finding, locs: seq<Segment>, cs: seq<Finding>)
    requires |cs| == |locs| && forall i :: 0 <= i < |cs| ==> cs[i] == Copy(f, locs[i])
    ensures AllLocations(cs) == locs
    decreases |cs|
  {
    if cs != [] {
      CopiesLocations(f, locs[1..], cs[1..]);
    }
  }

  /** `Copies` and `Extras` of a list built up one finding at a time. */
  lemma {:induction false} CopiesSnoc(fs: seq<Finding>, f: Finding)
    ensures Copies(fs + [f]) == Copies(fs) + CopiesOf(f)
    ensures Extras(fs + [f]) == Extras(fs) + ExtraOf(f)
    decreases |fs|
  {
    if fs == [] {
      assert [f][1..] == [];
    } else {
      assert (fs + [f])[1..] == fs[1..] + [f];
      CopiesSnoc(fs[1..], f);
    }
  }

  /** `split_findings2(*findings)`: the splits of the truthy findings given, or of the stored ones when none are given. */
  function SplitAll(fs: seq<Finding>): seq<Finding>
  {
    if fs == [] then [] else (if Truthy(fs[0]) then Split(fs[0]) else []) + SplitAll(fs[1..])
  }

  /** Every finding `split_findings2` yields is truthy. */
  lemma {:induction false} SplitAllTruthy(fs: seq<Finding>)
    ensures forall i :: 0 <= i < |SplitAll(fs)| ==> Truthy(SplitAll(fs)[i])
    decreases |fs|
  {
    if fs != [] {
      SplitAllTruthy(fs[1..]);
      if Truthy(fs[0]) && Len(fs[0]) > 1 {
        forall i | 0 <= i < |Split(fs[0])|
          ensures Truthy(Split(fs[0])[i])
        {
          SplitPartsAreSingle(fs[0], i);
        }
      }
    }
  }
}
