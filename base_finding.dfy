/**
 * The findings of the broad colonoscopy reading: a BaseFinding is filled in
 * step by step from one finding segment (sizes, depths, spelled-out
 * locations, polyp count, removal), and its two kinds decide how
 * consecutive findings are combined: a NaiveFinding merges into the one
 * before it when the two are compatible, a SingleFinding never merges.
 *
 * The size and depth regular expressions are the same parameters as the
 * finding builder's (`Matchers`).
 */
module BaseFindings {
  import opened Wrappers
  import opened Text
  import opened Utils
  import opened Patterns
  import opened Findings
  import opened FindingBuilders

  /** NaiveFinding or SingleFinding. */
  datatype Kind = Naive | Single

  /**
   * The state of a finding: `source`, `_count`, `removal`, `_locations`
   * and `size` (None until a size is read). `removal` is False where the
   * code leaves None, which it treats the same way.
   */
  datatype FindingValue = FindingValue(
    source: Option<string>, rawCount: int, removal: bool, locations: seq<Segment>, size: Option<real>)

  /** A size is truthy when it is set and not 0. */
  predicate SizeSet(size: Option<real>) { size.Some? && size.value != 0.0 }

  /** The `count` property: `_count`, or 1 when it is 0; always 1 for a SingleFinding. */
  function CountOf(kind: Kind, v: FindingValue): (r: int)
    ensures v.rawCount == 0 ==> r == 1
    ensures kind == Single ==> r == 1
    ensures kind == Naive && v.rawCount != 0 ==> r == v.rawCount
  {
    if kind == Single || v.rawCount == 0 then 1 else v.rawCount
  }

  // ---------------------------------------------------------------- compatibility and merge

  predicate CountsDiffer(a: FindingValue, b: FindingValue)
  {
    a.rawCount != 0 && b.rawCount != 0 && a.rawCount != b.rawCount
  }

  /**
   * `NaiveFinding.is_compatible(self=a, f=b)`. Findings of one source are
   * compatible unless only b is a removal, both counts are set and differ,
   * the location sets differ, or both have a size. Findings of different
   * sources are never compatible when both have locations.
   */
  function NaiveCompatible(a: FindingValue, b: FindingValue): (r: bool)
    ensures a.source == b.source ==>
      (r <==> !(b.removal && !a.removal) && !CountsDiffer(a, b)
              && Distinct(a.locations) == Distinct(b.locations) && !(SizeSet(a.size) && SizeSet(b.size)))
    ensures a.source != b.source && a.locations != [] && b.locations != [] ==> !r
    ensures a.source != b.source && CountsDiffer(a, b) ==> !r
  {
    if a.source == b.source then
      if b.removal && !a.removal then false
      else if CountsDiffer(a, b) then false
      else if Distinct(a.locations) != Distinct(b.locations) then false
      else if SizeSet(a.size) && SizeSet(b.size) then false
      else true
    else
      assert a.locations != [] ==> a.locations[0] in Distinct(a.locations);
      if CountsDiffer(a, b) then false
      else if a.removal && b.removal && a.removal != b.removal then false
      else if a.locations != [] && b.locations != [] && Distinct(a.locations) + Distinct(b.locations) != {} then false
      else if SizeSet(a.size) && SizeSet(b.size) && a.size != b.size then false
      else true
  }

  function MaxReal(x: real, y: real): (r: real)
    ensures r >= x && r >= y && (r == x || r == y)
  {
    if x >= y then x else y
  }

  /** `NaiveFinding.merge(self=a, f=b)`: the max count, either removal, a's locations then b's, and the larger size. */
  function MergedValue(a: FindingValue, b: FindingValue): (r: FindingValue)
    ensures r.source == a.source
    ensures r.rawCount >= a.rawCount && r.rawCount >= b.rawCount && (r.rawCount == a.rawCount || r.rawCount == b.rawCount)
    ensures r.removal <==> a.removal || b.removal
    ensures r.locations == a.locations + b.locations
    ensures SizeSet(a.size) && SizeSet(b.size) ==> r.size == Some(MaxReal(a.size.value, b.size.value))
    ensures !SizeSet(b.size) ==> r.size == a.size
    ensures !SizeSet(a.size) && SizeSet(b.size) ==> r.size == b.size
  {
    FindingValue(
      a.source,
      if a.rawCount >= b.rawCount then a.rawCount else b.rawCount,
      a.removal || b.removal,
      a.locations + b.locations,
      if SizeSet(a.size) && SizeSet(b.size) then Some(MaxReal(a.size.value, b.size.value))
      else if SizeSet(b.size) then b.size
      else a.size)
  }

  /**
   * Folding a compatible new finding f into the last one (as the
   * colonoscopy reader does) keeps the last one's location set, takes f's
   * removal, and the one size that is set.
   */
  lemma MergeIntoLast(last: FindingValue, f: FindingValue)
    requires f.source == last.source && NaiveCompatible(f, last)
    ensures Distinct(MergedValue(last, f).locations) == Distinct(last.locations)
    ensures MergedValue(last, f).removal == f.removal
    ensures MergedValue(last, f).size == (if SizeSet(f.size) then f.size else last.size)
    ensures CountOf(Naive, MergedValue(last, f)) == CountOf(Naive, last) || CountOf(Naive, MergedValue(last, f)) == CountOf(Naive, f)
  {
    var r := MergedValue(last, f);
    assert forall x :: x in r.locations <==> x in last.locations || x in f.locations;
  }

  /** Compatibility is not symmetric: a removal must come after the finding it completes. */
  lemma CompatibleNotSymmetric()
    ensures var plain := FindingValue(None, 0, false, [], None);
            var removed := FindingValue(None, 0, true, [], None);
            NaiveCompatible(removed, plain) && !NaiveCompatible(plain, removed)
  {
  }

  // ---------------------------------------------------------------- the kinds

  /** `is_compatible` of a finding of kind `self` with one of kind `other`. */
  function KindCompatible(self: Kind, a: FindingValue, other: Kind, b: FindingValue): (r: Result<bool>)
    ensures self != other ==> r.Err? && r.error.ValueError?
    ensures self == other == Single ==> r == Ok(false)
    ensures self == other == Naive ==> r == Ok(NaiveCompatible(a, b))
  {
    if self != other then Err(ValueError("Can only compare findings"))
    else if self == Single then Ok(false)
    else Ok(NaiveCompatible(a, b))
  }

  /** `merge`: a SingleFinding never merges, and neither kind merges with the other. */
  function KindMerged(self: Kind, a: FindingValue, other: Kind, b: FindingValue): (r: Result<FindingValue>)
    ensures r.Err? <==> self != other || self == Single
    ensures r.Err? ==> r.error.ValueError?
    ensures r.Ok? ==> r.value == MergedValue(a, b)
  {
    if self != other then Err(ValueError("Can only merge findings"))
    else if self == Single then Err(ValueError("SingleFinding cannot be merged."))
    else Ok(MergedValue(a, b))
  }

  /** The colonoscopy reader's step for SingleFindings: nothing is ever compatible, so nothing is merged. */
  lemma SingleNeverMerges(a: FindingValue, b: FindingValue)
    ensures KindCompatible(Single, a, Single, b) == Ok(false)
    ensures KindMerged(Single, a, Single, b).Err?
    ensures CountOf(Single, a) == 1
  {
  }

  // ---------------------------------------------------------------- key and value

  /** `l.split(c, maxsplit=1)` when c occurs in l. */
  function SplitFirst(l: string, c: char): (r: Option<(string, string)>)
    ensures r.None? <==> !Contains(l, [c])
    ensures r.Some? ==> r.value.0 + [c] + r.value.1 == l && !Contains(r.value.0, [c])
  {
    match Find(l, [c])
      case None => None
      case Some(k) =>
        assert l[..k] + [c] + l[k + 1..] == l;
        NotFoundBefore(l, [c], k);
        Some((l[..k], l[k + 1..]))
  }

  /**
   * The key and value of a segment: split at its first '—', else its first
   * ':', else its first '-'; without a key, or with an empty key or one
   * longer than 40, the whole lower-cased segment is the value. (The code
   * tests for the splitters in the segment itself; lower-casing does not
   * change them.)
   */
  function KeyValue(s: string): (r: (Option<string>, string))
    ensures r.0.None? ==> r.1 == Lower(s)
    ensures r.0.Some? ==>
      (0 < |r.0.value| <= 40 && exists c :: c in "—:-" && r.0.value + [c] + r.1 == Lower(s) && !Contains(r.0.value, [c]))
    ensures r.0.Some? && Contains(Lower(s), "—") ==> r.0.value + "—" + r.1 == Lower(s)
  {
    var l := Lower(s);
    var split := if Contains(l, "—") then SplitFirst(l, '—')
                 else if Contains(l, ":") then SplitFirst(l, ':')
                 else SplitFirst(l, '-');
    if split.None? || split.value.0 == [] || |split.value.0| > 40 then (None, l)
    else (Some(split.value.0), split.value.1)
  }

  // ---------------------------------------------------------------- sizes

  /** The size of one match: the larger of its n1 and n2 values, times 10 for centimetres. */
  function HitMm(h: SizeHit): Result<real>
  {
    match GroupSize(h.n1)
      case Err(e) => Err(e)
      case Ok(a) =>
        match GroupSize(h.n2)
          case Err(e) => Err(e)
          case Ok(b) => Ok(if h.centi then MaxReal(a, b) * 10.0 else MaxReal(a, b))
  }

  /** `if not self.size or size > self.size: self.size = size`. */
  function Larger(cur: Option<real>, s: real): Option<real>
  {
    if !SizeSet(cur) || s > cur.value then Some(s) else cur
  }

  /** A match's size reads both groups: the larger, in millimetres. */
  lemma HitMmValue(h: SizeHit)
    ensures HitMm(h).Ok? <==> GroupSize(h.n1).Ok? && GroupSize(h.n2).Ok?
    ensures HitMm(h).Ok? ==> HitMm(h).value == if h.centi then 10.0 * MaxReal(GroupSize(h.n1).value, GroupSize(h.n2).value)
                                 else MaxReal(GroupSize(h.n1).value, GroupSize(h.n2).value)
  {
  }

  /** The size after a match is at least that match's size, and is either the old size or the new one. */
  lemma LargerBounds(cur: Option<real>, s: real)
    ensures Larger(cur, s).Some? && Larger(cur, s).value >= s
    ensures Larger(cur, s) == cur || Larger(cur, s) == Some(s)
    ensures SizeSet(cur) ==> Larger(cur, s) == Some(MaxReal(cur.value, s))
  {
  }

  /**
   * The loop of `extract_size` over the matches in order, from the size the
   * finding had: the size it ends with and the spans of the matches it used
   * (a match over 100 mm is passed over and stays in the text). The first
   * unreadable number raises.
   */
  function SizeScan(size0: Option<real>, hits: seq<SizeHit>): (r: Result<(Option<real>, seq<(nat, nat)>)>)
    ensures r.Ok? ==> |r.value.1| <= |hits|
  {
    if hits == [] then Ok((size0, []))
    else
      var h := hits[|hits| - 1];
      match SizeScan(size0, hits[..|hits| - 1])
        case Err(e) => Err(e)
        case Ok((sz, spans)) =>
          match HitMm(h)
            case Err(e) => Err(e)
            case Ok(mm) => if mm > 100.0 then Ok((sz, spans)) else Ok((Larger(sz, mm), spans + [(h.start, h.end)]))
  }

  /** `extract_size(pat, value)`: the new size and the text without the matches used. */
  function SizeStep(hits: seq<SizeHit>, value: string, size0: Option<real>): Result<(Option<real>, string)>
  {
    ScanCut(SizeScan(size0, hits), value)
  }

  /** The size a scan ends with is the one it started from or the size of a match of at most 100 mm. */
  lemma {:induction false} SizeScanPicks(size0: Option<real>, hits: seq<SizeHit>)
    requires SizeScan(size0, hits).Ok?
    ensures var sz := SizeScan(size0, hits).value.0;
      sz == size0 || (sz.Some? && sz.value <= 100.0 && exists k :: 0 <= k < |hits| && HitMm(hits[k]) == Ok(sz.value))
    decreases |hits|
  {
    if hits != [] {
      var front := hits[..|hits| - 1];
      SizeScanPicks(size0, front);
      var sz := SizeScan(size0, front).value.0;
      if sz != size0 {
        var k :| 0 <= k < |front| && HitMm(front[k]) == Ok(sz.value);
        assert front[k] == hits[k];
      }
    }
  }

  /** The size a scan ends with is at least every positive size of at most 100 mm it passed: only the largest is kept. */
  lemma {:induction false} SizeScanKeepsLargest(size0: Option<real>, hits: seq<SizeHit>)
    requires SizeScan(size0, hits).Ok?
    ensures var sz := SizeScan(size0, hits).value.0;
      forall k :: 0 <= k < |hits| && HitMm(hits[k]).Ok? && 0.0 < HitMm(hits[k]).value <= 100.0 ==>
        sz.Some? && HitMm(hits[k]).value <= sz.value
    decreases |hits|
  {
    if hits != [] {
      var front, last := hits[..|hits| - 1], hits[|hits| - 1];
      assert front + [last] == hits;
      SizeScanGrows(size0, front, last);
      SizeScanKeepsLargest(size0, front);
      var sz, szf := SizeScan(size0, hits).value.0, SizeScan(size0, front).value.0;
      forall k | 0 <= k < |hits| && HitMm(hits[k]).Ok? && 0.0 < HitMm(hits[k]).value <= 100.0
        ensures sz.Some? && HitMm(hits[k]).value <= sz.value
      {
        if k < |front| {
          assert front[k] == hits[k];
          assert szf.Some? && szf.value >= HitMm(hits[k]).value;
        }
      }
    }
  }

  /** One more match never lowers a positive size. */
  lemma SizeScanGrows(size0: Option<real>, front: seq<SizeHit>, h: SizeHit)
    requires SizeScan(size0, front + [h]).Ok?
    ensures SizeScan(size0, front).Ok?
    ensures var sz, sz' := SizeScan(size0, front).value.0, SizeScan(size0, front + [h]).value.0;
      (sz.Some? && sz.value > 0.0 ==> sz'.Some? && sz'.value >= sz.value)
      && (HitMm(h).value <= 100.0 ==> sz'.Some? && sz'.value >= HitMm(h).value)
  {
    assert (front + [h])[..|front + [h]| - 1] == front;
  }

  /** A scan from a positive size ends with a size at least as large. */
  lemma {:induction false} SizeScanFromPositive(size0: Option<real>, hits: seq<SizeHit>)
    requires SizeScan(size0, hits).Ok? && size0.Some? && size0.value > 0.0
    ensures SizeScan(size0, hits).value.0.Some? && SizeScan(size0, hits).value.0.value >= size0.value
    decreases |hits|
  {
    if hits != [] {
      var front := hits[..|hits| - 1];
      assert front + [hits[|hits| - 1]] == hits;
      SizeScanFromPositive(size0, front);
      SizeScanGrows(size0, front, hits[|hits| - 1]);
    }
  }

  /** A match over 100 mm is never taken: a scan over such matches alone keeps the size and the text. */
  lemma {:induction false} SizeScanSkipsLarge(size0: Option<real>, hits: seq<SizeHit>)
    requires forall k :: 0 <= k < |hits| ==> HitMm(hits[k]).Ok? && HitMm(hits[k]).value > 100.0
    ensures SizeScan(size0, hits) == Ok((size0, []))
    decreases |hits|
  {
    if hits != [] {
      SizeScanSkipsLarge(size0, hits[..|hits| - 1]);
    }
  }

  /** The size read from each match, in order. */
  function Readings(hits: seq<SizeHit>): (r: seq<Result<real>>)
    ensures |r| == |hits|
  {
    if hits == [] then [] else Readings(hits[..|hits| - 1]) + [HitMm(hits[|hits| - 1])]
  }

  /** `SizeScan` over readings already taken: the loop works from these. */
  function ScanOf(size0: Option<real>, mms: seq<Result<real>>, hits: seq<SizeHit>): Result<(Option<real>, seq<(nat, nat)>)>
    requires |mms| == |hits|
    decreases |hits|
  {
    if hits == [] then Ok((size0, []))
    else
      var h := hits[|hits| - 1];
      match ScanOf(size0, mms[..|hits| - 1], hits[..|hits| - 1])
        case Err(e) => Err(e)
        case Ok((sz, spans)) =>
          match mms[|hits| - 1]
            case Err(e) => Err(e)
            case Ok(mm) => if mm > 100.0 then Ok((sz, spans)) else Ok((Larger(sz, mm), spans + [(h.start, h.end)]))
  }

  /** The scan over the matches' own readings is the scan of the matches. */
  lemma {:induction false} ScanOfReadings(size0: Option<real>, hits: seq<SizeHit>)
    ensures ScanOf(size0, Readings(hits), hits) == SizeScan(size0, hits)
    decreases |hits|
  {
    if hits != [] {
      var n := |hits| - 1;
      assert Readings(hits)[..n] == Readings(hits[..n]);
      ScanOfReadings(size0, hits[..n]);
    }
  }

  /** The text left after a scan. */
  function ScanCut(st: Result<(Option<real>, seq<(nat, nat)>)>, value: string): Result<(Option<real>, string)>
  {
    match st
      case Err(e) => Err(e)
      case Ok((sz, spans)) => Ok((sz, CutOut(value, spans)))
  }

  /** An error in a prefix of the readings is the error of the whole scan. */
  lemma {:induction false} ScanOfKeepsError(size0: Option<real>, mms: seq<Result<real>>, hits: seq<SizeHit>, j: nat)
    requires |mms| == |hits| && j <= |hits| && ScanOf(size0, mms[..j], hits[..j]).Err?
    ensures ScanOf(size0, mms, hits) == ScanOf(size0, mms[..j], hits[..j])
    decreases |hits| - j
  {
    if j < |hits| {
      assert hits[..j + 1][..j] == hits[..j];
      assert mms[..j + 1][..j] == mms[..j];
      ScanOfKeepsError(size0, mms, hits, j + 1);
    } else {
      assert hits[..j] == hits && mms[..j] == mms;
    }
  }

  // ---------------------------------------------------------------- depths

  lemma {:induction false} DepthKeptAppend(text: string, a: seq<DepthHit>, b: seq<DepthHit>)
    ensures DepthKept(text, a + b) == DepthKept(text, a) + DepthKept(text, b)
    decreases |a|
  {
    if a != [] {
      assert (a + b)[0] == a[0];
      assert (a + b)[1..] == a[1..] + b;
      DepthKeptAppend(text, a[1..], b);
      var x := KeptOf(text, a[0]);
      assert DepthKept(text, a + b) == x + (DepthKept(text, a[1..]) + DepthKept(text, b));
      assert x + (DepthKept(text, a[1..]) + DepthKept(text, b)) == (x + DepthKept(text, a[1..])) + DepthKept(text, b);
    } else {
      assert a + b == b;
    }
  }

  lemma {:induction false} DepthSpansAppend(a: seq<DepthHit>, b: seq<DepthHit>)
    ensures DepthSpans(a + b) == DepthSpans(a) + DepthSpans(b)
    decreases |a|
  {
    if a != [] {
      assert (a + b)[1..] == a[1..] + b;
      DepthSpansAppend(a[1..], b);
    } else {
      assert a + b == b;
    }
  }

  /** Two readings one after the other: the first error, else both lists of locations. */
  function Then(x: Result<seq<Segment>>, y: Result<seq<Segment>>): Result<seq<Segment>>
  {
    match x
      case Err(e) => Err(e)
      case Ok(u) =>
        match y
          case Err(e) => Err(e)
          case Ok(v) => Ok(u + v)
  }

  lemma {:induction false} DepthLocationsAppend(a: seq<DepthHit>, b: seq<DepthHit>)
    ensures DepthLocations(a + b) == Then(DepthLocations(a), DepthLocations(b))
    decreases |a|
  {
    if a != [] {
      assert (a + b)[1..] == a[1..] + b;
      DepthLocationsAppend(a[1..], b);
      match DepthLocations(b)
        case Err(_) =>
        case Ok(v) =>
          match DepthLocations(a[1..])
            case Err(_) =>
            case Ok(u) =>
              match Float(a[0].number)
                case Err(_) =>
                case Ok(d) => assert BandsAt(DepthBands, d) + (u + v) == (BandsAt(DepthBands, d) + u) + v;
    } else {
      assert a + b == b;
      match DepthLocations(b)
        case Err(_) =>
        case Ok(v) => assert [] + v == v;
    }
  }

  /** `extract_depth(pat, value)`: the kept matches' locations are added to the finding's, and they are cut out of the text. */
  function DepthStep(hits: seq<DepthHit>, value: string, locs: seq<Segment>): (r: Result<(seq<Segment>, string)>)
  {
    var kept := DepthKept(value, hits);
    match DepthLocations(kept)
      case Err(e) => Err(e)
      case Ok(found) => Ok((locs + found, CutOut(value, DepthSpans(kept))))
  }

  /** A depth step adds a location exactly when it keeps a match: every readable depth lies in a band. */
  lemma DepthStepAdds(hits: seq<DepthHit>, value: string, locs: seq<Segment>)
    requires DepthStep(hits, value, locs).Ok?
    ensures DepthStep(hits, value, locs).value.0 == locs <==> DepthKept(value, hits) == []
    ensures locs <= DepthStep(hits, value, locs).value.0
  {
    DepthLocationsFound(DepthKept(value, hits));
  }

  // ---------------------------------------------------------------- cutting the text

  /** Where the text after the spans starts. */
  function LastEnd(spans: seq<(nat, nat)>, from: nat): nat
  {
    if spans == [] then from else spans[|spans| - 1].1
  }

  /** Adding a span splits the last piece at it. */
  lemma {:induction false} PiecesSnoc(t: string, spans: seq<(nat, nat)>, from: nat, a: nat, b: nat)
    ensures Pieces(t, spans + [(a, b)], from)
         == Pieces(t, spans, from)[..|spans|] + [Slice(t, LastEnd(spans, from), a), Slice(t, b, |t|)]
    ensures Pieces(t, spans, from) == Pieces(t, spans, from)[..|spans|] + [Slice(t, LastEnd(spans, from), |t|)]
    decreases |spans|
  {
    if spans != [] {
      var s0 := spans[0];
      assert (spans + [(a, b)])[1..] == spans[1..] + [(a, b)];
      PiecesSnoc(t, spans[1..], s0.1, a, b);
      assert LastEnd(spans[1..], s0.1) == LastEnd(spans, from);
      assert Pieces(t, spans, from)[..|spans|] == [Slice(t, from, s0.0)] + Pieces(t, spans[1..], s0.1)[..|spans| - 1];
    }
  }

  // ---------------------------------------------------------------- spelled-out locations

  /** `\bw\b` matches at i (every location term starts and ends with a letter). */
  predicate WordAt(t: string, w: string, i: nat)
    requires i + |w| <= |t|
  {
    t[i..i + |w|] == w && (i == 0 || !IsWordChar(t[i - 1])) && (i + |w| == |t| || !IsWordChar(t[i + |w|]))
  }

  /** `re.search(rf'\b{w}\b', t)` on a lower-cased text and a lower-case term. */
  predicate HasWord(t: string, w: string)
  {
    exists i: nat :: i + |w| <= |t| && WordAt(t, w, i)
  }

  /** The terms, in order, that occur as words in t. */
  function Spelled(t: string, terms: seq<string>): (r: seq<string>)
    ensures |r| <= |terms|
  {
    if terms == [] then []
    else (if HasWord(t, terms[0]) then [terms[0]] else []) + Spelled(t, terms[1..])
  }

  /** The `LOCATIONS` terms found in the key, or in the value when there is no key. */
  function SpelledOut(key: Option<string>, value: string): seq<string>
  {
    if key.Some? then Spelled(key.value, LocationKeys) else Spelled(value, LocationKeys)
  }

  /** The standard locations the terms stand for, in order (a pair term stands for two). */
  function StdTerms(terms: seq<string>): (r: seq<Segment>)
    ensures r == [] <==> terms == []
    ensures |r| >= |terms|
  {
    if terms == [] then [] else Names(LocationOf(terms[0])) + StdTerms(terms[1..])
  }

  // ---------------------------------------------------------------- the count

  /** `max(NumberConvert.contains(value, ['polyp', 'polyps'], 3, split_on_non_word=True) + [0])`. */
  ghost function PolypCount(value: string): (r: nat)
    ensures forall t :: t in PolypNumbers(value) ==> NumberValues[t] <= r
    ensures r == 0 || exists t :: t in PolypNumbers(value) && NumberValues[t] == r
  {
    var img := Image(PolypNumbers(value), NumberValues);
    assert forall t :: t in PolypNumbers(value) ==> NumberValues[t] in img + {0};
    Largest(img + {0})
  }

  /** Without a number followed by 'polyp' or 'polyps' the count is 0. */
  lemma NoNumberNoCount(value: string)
    requires PolypNumbers(value) == {}
    ensures PolypCount(value) == 0
  {
  }

  method CountNumbers(value: string) returns (c: nat)
    ensures c == PolypCount(value)
  {
    var values := NumbersFollowedBy(SplitNonWord(value), NumberValues, ["polyp", "polyps"], 3);
    c := MaxWith(values, 0);
    PolypCountIs(value, values, c);
  }

  /** The largest of the qualifying numbers' values, or 0, is the polyp count. */
  lemma PolypCountIs(value: string, values: seq<nat>, c: nat)
    requires forall v :: v in values <==> v in Image(PolypNumbers(value), NumberValues)
    requires c == 0 || c in values
    requires forall k :: 0 <= k < |values| ==> values[k] <= c
    ensures PolypCount(value) == c
  {
    var img := Image(PolypNumbers(value), NumberValues);
    LargestOfValues(values, img, 0, c);
    assert img + {0, 0} == img + {0};
  }

  // ---------------------------------------------------------------- parse_finding

  /** The size and depth steps of `parse_finding`: the size, the locations from depths and the text left. */
  function Measured(m: Matchers, v0: string): (r: Result<(Option<real>, seq<Segment>, string)>)
  {
    match SizeStep(m.inSize(v0), v0, None)
      case Err(e) => Err(e)
      case Ok((sz1, v1)) =>
        match DepthStep(m.atDepth(v1), v1, [])
          case Err(e) => Err(e)
          case Ok((l1, v2)) =>
            var second: Result<(Option<real>, string)> := if SizeSet(sz1) then Ok((sz1, v2)) else SizeStep(m.size(v2), v2, sz1);
            match second
              case Err(e) => Err(e)
              case Ok((sz2, v3)) =>
                var fourth: Result<(seq<Segment>, string)> := if l1 != [] then Ok((l1, v3)) else DepthStep(m.cmDepth(v3), v3, l1);
                match fourth
                  case Err(e) => Err(e)
                  case Ok((l2, v4)) => Ok((sz2, l2, v4))
  }

  /**
   * `parse_finding(s, prev_locations)`: the measured size and depths, the
   * spelled-out locations, the previous locations when none were found,
   * the polyp count and the removal, read from the text left. (The depth
   * steps store standard names, which the closing `standardize_locations`
   * leaves as they are.)
   */
  ghost function Parsed(m: Matchers, s: string, prev: Option<seq<Segment>>): Result<FindingValue>
  {
    var (key, v0) := KeyValue(s);
    match Measured(m, v0)
      case Err(e) => Err(e)
      case Ok((sz, depths, v)) =>
        var found := depths + StdTerms(SpelledOut(key, v));
        Ok(FindingValue(None, PolypCount(v), Removed(v),
                        if prev.Some? && prev.value != [] && found == [] then prev.value else found, sz))
  }

  /**
   * A parsed finding has no location only when neither its segment nor
   * the previous finding has one; it takes the previous locations exactly
   * when it finds none of its own.
   */
  lemma ParsedLocations(m: Matchers, s: string, prev: Option<seq<Segment>>)
    requires Parsed(m, s, prev).Ok?
    ensures var (key, v0) := KeyValue(s);
      var (_, depths, v) := Measured(m, v0).value;
      var found := depths + StdTerms(SpelledOut(key, v));
      var locs := Parsed(m, s, prev).value.locations;
      (locs == [] <==> found == [] && (prev.None? || prev.value == []))
      && (found != [] ==> locs == found)
      && (found == [] && prev.Some? && prev.value != [] ==> locs == prev.value)
  {
  }

  /** The count of a parsed finding is the largest number followed within three words by 'polyp(s)', or 0. */
  lemma ParsedCount(m: Matchers, s: string, prev: Option<seq<Segment>>)
    requires Parsed(m, s, prev).Ok?
    ensures var v := Measured(m, KeyValue(s).1).value.2;
      var c := Parsed(m, s, prev).value.rawCount;
      c >= 0 && (forall t :: t in PolypNumbers(v) ==> NumberValues[t] <= c)
      && (c == 0 || exists t :: t in PolypNumbers(v) && NumberValues[t] == c)
  {
  }

  /** `is_standalone(prev_locations)`; with no previous locations (None) every finding is standalone. */
  predicate Standalone(v: FindingValue, prev: Option<seq<Segment>>)
  {
    prev.None? || v.locations != prev.value || SizeSet(v.size) || v.rawCount != 0
  }

  /**
   * A finding that found no location of its own and took the previous
   * ones stands alone only with a size or a count; the first finding of a
   * section always stands alone.
   */
  lemma StandaloneNeedsMore(m: Matchers, s: string, prev: Option<seq<Segment>>)
    requires Parsed(m, s, prev).Ok?
    requires prev.Some? && prev.value != []
    requires Parsed(m, s, prev).value.locations == prev.value
    ensures Standalone(Parsed(m, s, prev).value, prev) <==>
      SizeSet(Parsed(m, s, prev).value.size) || Parsed(m, s, prev).value.rawCount != 0
  {
  }

  // ---------------------------------------------------------------- the finding object

  class BaseFinding {
    const kind: Kind
    var source: Option<string>
    var rawCount: int
    var removal: bool
    var locations: seq<Segment>
    var size: Option<real>

    function Value(): FindingValue
      reads this
    {
      FindingValue(source, rawCount, removal, locations, size)
    }

    /** `NaiveFinding(location, count, removal, size)` or `SingleFinding(location, removal, size)`; the source is dropped. */
    constructor (kind: Kind, location: Option<Segment>, count: int, removal: bool, size: Option<real>)
      ensures this.kind == kind
      ensures Value() == FindingValue(None, if kind == Single then 1 else count, removal,
                                      if location.Some? then [location.value] else [], size)
    {
      this.kind := kind;
      source := None;
      rawCount := if kind == Single then 1 else count;
      this.removal := removal;
      locations := if location.Some? then [location.value] else [];
      this.size := size;
    }

    /** The `count` property. */
    function Count(): (r: int)
      reads this
      ensures r == CountOf(kind, Value())
      ensures rawCount >= 0 ==> r >= 1
    {
      if kind == Single || rawCount == 0 then 1 else rawCount
    }

    /** `is_standalone(prev_locations)`. */
    function IsStandalone(prev: Option<seq<Segment>>): (r: bool)
      reads this
      ensures r <==> Standalone(Value(), prev)
    {
      prev.None? || locations != prev.value || SizeSet(size) || rawCount != 0
    }

    /** `is_compatible(f)`. */
    function IsCompatible(f: BaseFinding): (r: Result<bool>)
      reads this, f
      ensures r == KindCompatible(kind, Value(), f.kind, f.Value())
    {
      if kind != f.kind then Err(ValueError("Can only compare findings"))
      else if kind == Single then Ok(false)
      else Ok(NaiveCompatible(Value(), f.Value()))
    }

    /** `merge(f)`: on success this finding becomes the merge of the two; otherwise nothing changes. */
    method Merge(f: BaseFinding) returns (r: Result<()>)
      modifies this
      ensures var m := KindMerged(kind, old(Value()), f.kind, old(f.Value()));
        (r.Ok? <==> m.Ok?) && (m.Ok? ==> Value() == m.value) && (m.Err? ==> r == Err(m.error) && Value() == old(Value()))
    {
      if kind != f.kind {
        return Err(ValueError("Can only merge findings"));
      }
      if kind == Single {
        return Err(ValueError("SingleFinding cannot be merged."));
      }
      var other := f.Value();
      rawCount := if rawCount >= other.rawCount then rawCount else other.rawCount;
      removal := removal || other.removal;
      locations := locations + other.locations;
      if SizeSet(size) && SizeSet(other.size) {
        size := Some(MaxReal(size.value, other.size.value));
      } else if SizeSet(other.size) {
        size := other.size;
      }
      r := Ok(());
    }

    /** `extract_size(pat, value)`: the size becomes the largest usable one and the text loses the matches used. */
    method ExtractSize(hits: seq<SizeHit>, value: string) returns (r: Result<string>)
      modifies this
      ensures var st := SizeStep(hits, value, old(size));
        (r.Ok? <==> st.Ok?) && (st.Ok? ==> size == st.value.0 && r.value == st.value.1)
        && (st.Err? ==> r == Err(st.error))
      ensures locations == old(locations) && rawCount == old(rawCount) && removal == old(removal) && source == old(source)
    {
      ScanOfReadings(size, hits);
      var st := SizeLoop(hits, Readings(hits), value, size);
      if st.Err? {
        return Err(st.error);
      }
      size := st.value.0;
      r := Ok(st.value.1);
    }

    /** The loop of `extract_size`, from the size the finding has, given each match's reading. */
    static method SizeLoop(hits: seq<SizeHit>, mms: seq<Result<real>>, value: string, size0: Option<real>)
      returns (r: Result<(Option<real>, string)>)
      requires |mms| == |hits|
      ensures r == ScanCut(ScanOf(size0, mms, hits), value)
    {
      var size := size0;
      ghost var spans: seq<(nat, nat)> := [];
      var pieces: seq<string> := [];
      var end: nat := 0;
      var i := 0;
      while i < |hits|
        invariant i <= |hits|
        invariant ScanOf(size0, mms[..i], hits[..i]) == Ok((size, spans))
        invariant pieces == Pieces(value, spans, 0)[..|spans|] && end == LastEnd(spans, 0)
      {
        var h := hits[i];
        var mm := mms[i];
        if mm.Err? {
          SizeErrorIsFinal(size0, mms, hits, i, value);
          return Err(mm.error);
        }
        if mm.value <= 100.0 {
          SizeUsedNext(value, size0, mms, hits, i, size, spans, pieces, end);
          size := Larger(size, mm.value);
          pieces := pieces + [Slice(value, end, h.start)];
          end := h.end;
          spans := spans + [(h.start, h.end)];
        } else {
          SizeSkippedNext(size0, mms, hits, i, size, spans);
        }
        i := i + 1;
      }
      assert hits[..i] == hits && mms[..i] == mms;
      SizeLoopDone(value, size0, mms, hits, size, spans, pieces, end);
      r := Ok((size, Join(pieces + [Slice(value, end, |value|)], " ")));
    }

    /** `extract_depth(pat, value)`: the kept matches' locations are added and the text loses those matches. */
    method ExtractDepth(hits: seq<DepthHit>, value: string) returns (r: Result<string>)
      modifies this
      ensures var st := DepthStep(hits, value, old(locations));
        (r.Ok? <==> st.Ok?) && (st.Ok? ==> locations == st.value.0 && r.value == st.value.1)
        && (st.Err? ==> r == Err(st.error))
      ensures size == old(size) && rawCount == old(rawCount) && removal == old(removal) && source == old(source)
    {
      var st := DepthLoop(hits, value);
      if st.Err? {
        return Err(st.error);
      }
      locations := locations + st.value.0;
      r := Ok(st.value.1);
    }

    /** The loop of `extract_depth`: the locations it adds and the text it leaves. */
    static method DepthLoop(hits: seq<DepthHit>, value: string) returns (r: Result<(seq<Segment>, string)>)
      ensures r == DepthStep(hits, value, [])
    {
      ghost var kept: seq<DepthHit> := [];
      var found: seq<Segment> := [];
      var pieces: seq<string> := [];
      var end: nat := 0;
      var i := 0;
      while i < |hits|
        invariant i <= |hits|
        invariant kept == DepthKept(value, hits[..i])
        invariant DepthLocations(kept) == Ok(found)
        invariant pieces == Pieces(value, DepthSpans(kept), 0)[..|kept|] && end == LastEnd(DepthSpans(kept), 0)
      {
        var h := hits[i];
        if !SizeFollows(value, h) {
          var d := Float(h.number);
          if d.Err? {
            DepthErrorIsFinal(value, hits, i, []);
            return Err(d.error);
          }
          DepthKeptNext(value, hits, i, kept, found, pieces, end);
          found := found + BandsAt(DepthBands, d.value);
          pieces := pieces + [Slice(value, end, h.start)];
          end := h.end;
          kept := kept + [h];
        } else {
          DepthKeptStep(value, hits, i);
        }
        i := i + 1;
      }
      assert hits[..i] == hits;
      PiecesSnoc(value, DepthSpans(kept), 0, 0, 0);
      assert [] + found == found;
      r := Ok((found, Join(pieces + [Slice(value, end, |value|)], " ")));
    }

    /**
     * The loop over `LOCATIONS`: the terms found in the key (or, without a
     * key, in the value) are added, standardised.
     */
    method AddSpelledOut(key: Option<string>, value: string)
      modifies this
      ensures locations == old(locations) + StdTerms(SpelledOut(key, value))
      ensures size == old(size) && rawCount == old(rawCount) && removal == old(removal) && source == old(source)
    {
      var found := SpelledIn(if key.Some? then key.value else value, LocationKeys);
      locations := locations + StdTerms(found);
    }

    /** The terms found as words in t, in order. */
    static method SpelledIn(t: string, terms: seq<string>) returns (found: seq<string>)
      ensures found == Spelled(t, terms)
    {
      found := [];
      var i := 0;
      while i < |terms|
        invariant i <= |terms|
        invariant Spelled(t, terms) == found + Spelled(t, terms[i..])
      {
        SpelledStep(t, terms, i);
        if HasWord(t, terms[i]) {
          found := found + [terms[i]];
        }
        i := i + 1;
      }
      assert terms[i..] == [];
    }

    /** The four measuring steps of `parse_finding`, on a finding with no size and no location yet. */
    method Measure(m: Matchers, v0: string) returns (r: Result<string>)
      requires size == None && locations == []
      modifies this
      ensures r.Ok? <==> Measured(m, v0).Ok?
      ensures r.Ok? ==> (size, locations, r.value) == Measured(m, v0).value
      ensures r.Err? ==> r.error == Measured(m, v0).error
      ensures rawCount == old(rawCount) && removal == old(removal) && source == old(source)
    {
      var value := v0;
      var v := ExtractSize(m.inSize(value), value);
      if v.Err? { return Err(v.error); }
      value := v.value;
      v := ExtractDepth(m.atDepth(value), value);
      if v.Err? { return Err(v.error); }
      value := v.value;
      if !SizeSet(size) {
        v := ExtractSize(m.size(value), value);
        if v.Err? { return Err(v.error); }
        value := v.value;
      }
      if locations == [] {
        v := ExtractDepth(m.cmDepth(value), value);
        if v.Err? { return Err(v.error); }
        value := v.value;
      }
      r := Ok(value);
    }

    /** `parse_finding(s, prev_locations)`: a new finding of the given kind, or the error a step raised. */
    static method ParseFinding(kind: Kind, m: Matchers, s: string, prev: Option<seq<Segment>>) returns (r: Result<BaseFinding>)
      ensures r.Ok? <==> Parsed(m, s, prev).Ok?
      ensures r.Ok? ==> fresh(r.value) && r.value.kind == kind && r.value.Value() == Parsed(m, s, prev).value
      ensures r.Err? ==> r.error == Parsed(m, s, prev).error
    {
      var (key, value) := KeyValue(s);
      var f := new BaseFinding(kind, None, 1, false, None);
      var v := f.Measure(m, value);
      if v.Err? { return Err(v.error); }
      value := v.value;
      f.Complete(key, value, prev);
      r := Ok(f);
    }

    /** The last steps of `parse_finding`: spelled-out locations, the previous ones as fallback, the count and the removal. */
    method Complete(key: Option<string>, value: string, prev: Option<seq<Segment>>)
      requires source == None
      modifies this
      ensures var found := old(locations) + StdTerms(SpelledOut(key, value));
        Value() == FindingValue(None, PolypCount(value), Removed(value),
                                if prev.Some? && prev.value != [] && found == [] then prev.value else found, old(size))
    {
      AddSpelledOut(key, value);
      if prev.Some? && prev.value != [] && locations == [] {
        locations := prev.value;
      }
      var c := CountNumbers(value);
      rawCount := c;
      removal := Removed(value);
    }
  }

  lemma ScanOfStep(size0: Option<real>, mms: seq<Result<real>>, hits: seq<SizeHit>, i: nat)
    requires |mms| == |hits| && i < |hits| && ScanOf(size0, mms[..i], hits[..i]).Ok?
    ensures var (sz, spans) := ScanOf(size0, mms[..i], hits[..i]).value;
      ScanOf(size0, mms[..i + 1], hits[..i + 1])
        == match mms[i]
             case Err(e) => Err(e)
             case Ok(mm) => if mm > 100.0 then Ok((sz, spans)) else Ok((Larger(sz, mm), spans + [(hits[i].start, hits[i].end)]))
  {
    assert hits[..i + 1][..i] == hits[..i];
    assert mms[..i + 1][..i] == mms[..i];
  }

  /** An unreadable size is the error of the whole size step. */
  lemma SizeErrorIsFinal(size0: Option<real>, mms: seq<Result<real>>, hits: seq<SizeHit>, i: nat, value: string)
    requires |mms| == |hits| && i < |hits| && ScanOf(size0, mms[..i], hits[..i]).Ok? && mms[i].Err?
    ensures ScanCut(ScanOf(size0, mms, hits), value) == Err(mms[i].error)
  {
    ScanOfStep(size0, mms, hits, i);
    ScanOfKeepsError(size0, mms, hits, i + 1);
  }

  /** At the end of the `extract_size` loop the pieces make up the text left. */
  lemma SizeLoopDone(value: string, size0: Option<real>, mms: seq<Result<real>>, hits: seq<SizeHit>, size: Option<real>,
                     spans: seq<(nat, nat)>, pieces: seq<string>, end: nat)
    requires |mms| == |hits| && ScanOf(size0, mms, hits) == Ok((size, spans))
    requires pieces == Pieces(value, spans, 0)[..|spans|] && end == LastEnd(spans, 0)
    ensures ScanCut(ScanOf(size0, mms, hits), value) == Ok((size, Join(pieces + [Slice(value, end, |value|)], " ")))
  {
    PiecesSnoc(value, spans, 0, 0, 0);
  }

  /** A size over 100 mm leaves the state of the `extract_size` loop as it is. */
  lemma SizeSkippedNext(size0: Option<real>, mms: seq<Result<real>>, hits: seq<SizeHit>, i: nat, size: Option<real>, spans: seq<(nat, nat)>)
    requires |mms| == |hits| && i < |hits| && ScanOf(size0, mms[..i], hits[..i]) == Ok((size, spans))
    requires mms[i].Ok? && mms[i].value > 100.0
    ensures ScanOf(size0, mms[..i + 1], hits[..i + 1]) == Ok((size, spans))
  {
    ScanOfStep(size0, mms, hits, i);
  }

  /** A readable size of at most 100 mm extends the state of the `extract_size` loop. */
  lemma SizeUsedNext(value: string, size0: Option<real>, mms: seq<Result<real>>, hits: seq<SizeHit>, i: nat, size: Option<real>,
                     spans: seq<(nat, nat)>, pieces: seq<string>, end: nat)
    requires |mms| == |hits| && i < |hits| && ScanOf(size0, mms[..i], hits[..i]) == Ok((size, spans))
    requires pieces == Pieces(value, spans, 0)[..|spans|] && end == LastEnd(spans, 0)
    requires mms[i].Ok? && mms[i].value <= 100.0
    ensures var h := hits[i];
      && ScanOf(size0, mms[..i + 1], hits[..i + 1]) == Ok((Larger(size, mms[i].value), spans + [(h.start, h.end)]))
      && pieces + [Slice(value, end, h.start)] == Pieces(value, spans + [(h.start, h.end)], 0)[..|spans| + 1]
      && h.end == LastEnd(spans + [(h.start, h.end)], 0)
  {
    var h := hits[i];
    ScanOfStep(size0, mms, hits, i);
    PiecesSnoc(value, spans, 0, h.start, h.end);
  }

  /** A kept, readable depth match extends the state of the `extract_depth` loop. */
  lemma DepthKeptNext(value: string, hits: seq<DepthHit>, i: nat, kept: seq<DepthHit>, found: seq<Segment>, pieces: seq<string>, end: nat)
    requires i < |hits| && kept == DepthKept(value, hits[..i]) && DepthLocations(kept) == Ok(found)
    requires pieces == Pieces(value, DepthSpans(kept), 0)[..|kept|] && end == LastEnd(DepthSpans(kept), 0)
    requires !SizeFollows(value, hits[i]) && Float(hits[i].number).Ok?
    ensures var h := hits[i];
      && kept + [h] == DepthKept(value, hits[..i + 1])
      && DepthLocations(kept + [h]) == Ok(found + BandsAt(DepthBands, Float(h.number).value))
      && pieces + [Slice(value, end, h.start)] == Pieces(value, DepthSpans(kept + [h]), 0)[..|kept| + 1]
      && h.end == LastEnd(DepthSpans(kept + [h]), 0)
  {
    var h := hits[i];
    DepthKeptStep(value, hits, i);
    DepthKeptOne(kept, h);
    PiecesSnoc(value, DepthSpans(kept), 0, h.start, h.end);
  }

  /** An unreadable depth in a kept match is the error of the whole depth step. */
  lemma DepthErrorIsFinal(value: string, hits: seq<DepthHit>, i: nat, locs: seq<Segment>)
    requires i < |hits| && DepthLocations(DepthKept(value, hits[..i])).Ok?
    requires !SizeFollows(value, hits[i]) && Float(hits[i].number).Err?
    ensures DepthStep(hits, value, locs) == Err(Float(hits[i].number).error)
  {
    var kept := DepthKept(value, hits[..i]);
    var e := Float(hits[i].number).error;
    assert KeptOf(value, hits[i]) == [hits[i]];
    DepthKeptSplit(value, hits, i);
    DepthLocationsAppend(kept, [hits[i]]);
    assert DepthLocations([hits[i]]) == Err(e);
    assert DepthLocations(kept + [hits[i]]) == Err(e);
    DepthLocationsAppend(kept + [hits[i]], DepthKept(value, hits[i + 1..]));
  }

  /** The kept matches of the whole list around a kept match i. */
  lemma DepthKeptSplit(value: string, hits: seq<DepthHit>, i: nat)
    requires i < |hits| && KeptOf(value, hits[i]) == [hits[i]]
    ensures DepthKept(value, hits) == DepthKept(value, hits[..i]) + [hits[i]] + DepthKept(value, hits[i + 1..])
  {
    var a, h, c := hits[..i], hits[i], hits[i + 1..];
    assert hits == (a + [h]) + c;
    DepthKeptAppend(value, a + [h], c);
    DepthKeptAppend(value, a, [h]);
    assert [h][1..] == [];
    assert DepthKept(value, [h]) == [h] + [];
  }

  /** A kept match with a readable depth adds its bands and its span. */
  lemma DepthKeptOne(kept: seq<DepthHit>, h: DepthHit)
    requires DepthLocations(kept).Ok? && Float(h.number).Ok?
    ensures DepthLocations(kept + [h]) == Ok(DepthLocations(kept).value + BandsAt(DepthBands, Float(h.number).value))
    ensures DepthSpans(kept + [h]) == DepthSpans(kept) + [(h.start, h.end)]
  {
    DepthLocationsAppend(kept, [h]);
    DepthSpansAppend(kept, [h]);
    var b := BandsAt(DepthBands, Float(h.number).value);
    assert [h][1..] == [];
    assert DepthLocations([h]) == Ok(b + []);
    assert b + [] == b;
  }

  /** One term of the loop over the location terms. */
  lemma SpelledStep(t: string, terms: seq<string>, i: nat)
    requires i < |terms|
    ensures Spelled(t, terms[i..]) == (if HasWord(t, terms[i]) then [terms[i]] else []) + Spelled(t, terms[i + 1..])
  {
    assert terms[i..][1..] == terms[i + 1..];
  }

  lemma DepthKeptStep(text: string, hits: seq<DepthHit>, i: nat)
    requires i < |hits|
    ensures DepthKept(text, hits[..i + 1]) == DepthKept(text, hits[..i]) + (if SizeFollows(text, hits[i]) then [] else [hits[i]])
  {
    assert hits[..i + 1] == hits[..i] + [hits[i]];
    DepthKeptAppend(text, hits[..i], [hits[i]]);
  }

  lemma {:induction false} StdTermsAppend(a: seq<string>, b: seq<string>)
    ensures StdTerms(a + b) == StdTerms(a) + StdTerms(b)
    decreases |a|
  {
    if a != [] {
      assert (a + b)[1..] == a[1..] + b;
      StdTermsAppend(a[1..], b);
    } else {
      assert a + b == b;
    }
  }
}
