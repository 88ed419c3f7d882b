// The score-level decisions of algorithm.py: negation windows, adenoma-count
// binning, the flags of the three-valued count comparisons, villous histology
// by location and the large-adenoma decision over both reports.

module Algorithm {
  import opened Wrappers
  import opened Text
  import opened Enums
  import opened MaybeCounters
  import opened Utils
  import opened JarManagers
  import opened PathManagers
  import opened BaseFindings
  import opened Jars
  import Cspy

  /** The set of a sequence's items (Python's `set(xs)`). */
  function Items<T>(xs: seq<T>): set<T> { set x | x in xs }

  // ---------------------------------------------------------------- has_negation

  /** Python's `xs[:n]` for n > 0: the first n items, or all of them. */
  function TakePy<T>(xs: seq<T>, n: nat): (r: seq<T>)
    ensures |r| == (if n < |xs| then n else |xs|) && r == xs[..|r|]
  {
    if n < |xs| then xs[..n] else xs
  }

  /** Python's `xs[w:]` for w <= 0: everything when w is 0, else the last -w items. */
  function FromPy<T>(xs: seq<T>, w: int): (r: seq<T>)
    requires w <= 0
    ensures w == 0 ==> r == xs
    ensures |r| <= |xs| && r == xs[|xs| - |r|..]
    ensures w < 0 ==> |r| == (if -w < |xs| then -w else |xs|)
  {
    if w == 0 || -w >= |xs| then xs else xs[|xs| + w..]
  }

  /**
   * The words `has_negation` looks at around a match starting at `index`: a
   * positive window takes that many words from the match on; any other
   * window takes the last -window words of the text up to and including the
   * match's first character (a window of 0 takes all of them).
   */
  function WindowWords(split: string -> seq<string>, index: nat, text: string, window: int): seq<string>
    requires index <= |text|
  {
    if window > 0 then TakePy(split(text[index..]), window)
    else FromPy(split(text[..if index + 1 <= |text| then index + 1 else |text|]), window)
  }

  /** `has_negation(index, text, window, negset)` is truthy: a window word is a negation word. */
  predicate HasNegation(split: string -> seq<string>, index: nat, text: string, window: int, negset: set<string>)
    requires index <= |text|
  {
    Items(WindowWords(split, index, text, window)) * negset != {}
  }

  /** A sequence shares an item with a set exactly when one of its positions holds a member. */
  lemma ItemsMeet<T>(xs: seq<T>, ns: set<T>)
    ensures Items(xs) * ns != {} <==> exists j :: 0 <= j < |xs| && xs[j] in ns
  {
    if Items(xs) * ns != {} {
      var x :| x in Items(xs) * ns;
      var j :| 0 <= j < |xs| && xs[j] == x;
    }
    if exists j :: 0 <= j < |xs| && xs[j] in ns {
      var j :| 0 <= j < |xs| && xs[j] in ns;
      assert xs[j] in Items(xs) * ns;
    }
  }

  /** With a positive window, a negation is one of the first `window` words from the match on. */
  lemma NegationAhead(split: string -> seq<string>, index: nat, text: string, window: int, negset: set<string>)
    requires index <= |text| && window > 0
    ensures var words := split(text[index..]);
      HasNegation(split, index, text, window, negset) <==>
      exists j :: 0 <= j < |words| && j < window && words[j] in negset
  {
    var words := split(text[index..]);
    var w := TakePy(words, window);
    assert WindowWords(split, index, text, window) == w;
    ItemsMeet(w, negset);
    assert forall j :: 0 <= j < |w| ==> w[j] == words[j];
  }

  /** With a negative window, a negation is one of the last -window words up to the match. */
  lemma NegationBehind(split: string -> seq<string>, index: nat, text: string, window: int, negset: set<string>)
    requires index < |text| && window < 0
    ensures var words := split(text[..index + 1]);
      HasNegation(split, index, text, window, negset) <==>
      exists j :: 0 <= j < |words| && |words| - j <= -window && words[j] in negset
  {
    var words := split(text[..index + 1]);
    var w := FromPy(words, window);
    assert WindowWords(split, index, text, window) == w;
    ItemsMeet(w, negset);
    var off := |words| - |w|;
    if exists k :: 0 <= k < |w| && w[k] in negset {
      var k :| 0 <= k < |w| && w[k] in negset;
      assert words[off + k] == w[k];
    }
    if exists j :: 0 <= j < |words| && |words| - j <= -window && words[j] in negset {
      var j :| 0 <= j < |words| && |words| - j <= -window && words[j] in negset;
      assert w[j - off] == words[j];
    }
  }

  // ---------------------------------------------------------------- find_in_specimen

  /**
   * The arguments of `find_in_specimen` around the pattern: the `\W+` word
   * splitter, the pre- and post-negation word sets (an empty set stands for
   * None, which the code treats alike) and the window.
   */
  datatype Negations = Negations(split: string -> seq<string>, pre: set<string>, post: set<string>, window: int)

  /** A match is negated: a pre-negation word before it or a post-negation word after it. */
  predicate Negated(ng: Negations, specimen: string, start: nat)
    requires start <= |specimen|
  {
    (ng.pre != {} && HasNegation(ng.split, start, specimen, -ng.window, ng.pre)) ||
    (ng.post != {} && HasNegation(ng.split, start, specimen, ng.window, ng.post))
  }

  method IsNegated(ng: Negations, specimen: string, start: nat) returns (b: bool)
    requires start <= |specimen|
    ensures b == Negated(ng, specimen, start)
  {
    b := Negated(ng, specimen, start);
  }

  /** The starts of the pattern's matches lie in the specimen. */
  predicate InText(specimen: string, starts: seq<nat>) { forall i :: 0 <= i < |starts| ==> starts[i] <= |specimen| }

  /**
   * `find_in_specimen` over the starts of the pattern's matches, in order:
   * 1 when some match is not negated; with terminate_on_negation, 1 only
   * when the first match is not negated, since the first negated match ends
   * the search.
   */
  method FindInSpecimen(ng: Negations, starts: seq<nat>, specimen: string, terminateOnNegation: bool) returns (r: int)
    requires InText(specimen, starts)
    ensures r == 0 || r == 1
    ensures !terminateOnNegation ==>
      (r == 1 <==> exists i :: 0 <= i < |starts| && !Negated(ng, specimen, starts[i]))
    ensures terminateOnNegation ==> (r == 1 <==> starts != [] && !Negated(ng, specimen, starts[0]))
  {
    var i := 0;
    while i < |starts|
      invariant i <= |starts|
      invariant forall j :: 0 <= j < i ==> Negated(ng, specimen, starts[j])
      invariant terminateOnNegation ==> i == 0
    {
      // the pre- and the post-negation branch both skip the match (or end the search)
      var negated := IsNegated(ng, specimen, starts[i]);
      if negated {
        if terminateOnNegation {
          break;
        }
      } else {
        return 1;
      }
      i := i + 1;
    }
    return 0;
  }

  // ---------------------------------------------------------------- get_adenoma_count

  /** `lkp`: the digits 1 to 9 and the words one to five. */
  const CountNames: map<string, nat> := map[
    "1" := 1, "2" := 2, "3" := 3, "4" := 4, "5" := 5, "6" := 6, "7" := 7, "8" := 8, "9" := 9,
    "one" := 1, "two" := 2, "three" := 3, "four" := 4, "five" := 5
  ]

  /** The number a count word names, if it is one of `lkp`'s keys. */
  function NameValue(w: string): (r: Option<nat>)
    ensures r.Some? <==> w in CountNames
    ensures r.Some? ==> r.value == CountNames[w] && 1 <= r.value <= 9
  {
    if w in CountNames then Some(CountNames[w]) else None
  }

  /**
   * The regular expressions of `get_adenoma_count`, read per specimen:
   * whether `get_adenoma_status([specimen])` finds an adenoma, and the text
   * of the first capture `polyps?\W*x\W*(names)` matches (case-insensitive,
   * so any casing of a name).
   */
  datatype CountMatchers = CountMatchers(isAdenoma: string -> bool, countWord: string -> Option<string>)

  /** One specimen's count as written: the captured text is looked up verbatim. */
  function SpecimenAdenomasAsWritten(cm: CountMatchers, specimen: string): Result<nat>
  {
    if !cm.isAdenoma(specimen) then Ok(0)
    else match cm.countWord(specimen)
      case None => Ok(1)
      case Some(w) => if w in CountNames then Ok(CountNames[w]) else Err(KeyError(w))
  }

  /** The report's count as written: the specimens' verbatim counts summed in order; the first failing lookup is raised. */
  function ReportAdenomasAsWritten(cm: CountMatchers, specimens: seq<string>): Result<nat>
  {
    if specimens == [] then Ok(0)
    else
      match ReportAdenomasAsWritten(cm, specimens[..|specimens| - 1])
        case Err(e) => Err(e)
        case Ok(n) =>
          match SpecimenAdenomasAsWritten(cm, specimens[|specimens| - 1])
            case Err(e) => Err(e)
            case Ok(k) => Ok(n + k)
  }

  /** Every count word captured is already in lower case. */
  predicate LowerCaseWords(cm: CountMatchers, specimens: seq<string>)
  {
    forall i :: 0 <= i < |specimens| && cm.countWord(specimens[i]).Some? ==>
      Lower(cm.countWord(specimens[i]).value) == cm.countWord(specimens[i]).value
  }

  /** Where every captured word is in lower case, the count as written is the intended one. */
  lemma {:induction false} AsWrittenAgrees(cm: CountMatchers, specimens: seq<string>)
    requires LowerCaseWords(cm, specimens)
    ensures ReportAdenomasAsWritten(cm, specimens) == ReportAdenomas(cm, specimens)
  {
    if specimens != [] {
      var front := specimens[..|specimens| - 1];
      assert LowerCaseWords(cm, front) by {
        forall i | 0 <= i < |front| ensures front[i] == specimens[i] { }
      }
      AsWrittenAgrees(cm, front);
      SpecimenAgrees(cm, specimens[|specimens| - 1]);
    }
  }

  /** One specimen whose captured word is in lower case counts the same as written and as intended. */
  lemma SpecimenAgrees(cm: CountMatchers, specimen: string)
    requires cm.countWord(specimen).Some? ==> Lower(cm.countWord(specimen).value) == cm.countWord(specimen).value
    ensures SpecimenAdenomasAsWritten(cm, specimen) == SpecimenAdenomas(cm, specimen)
  {
  }

  /** The pattern matches "Two" as well as "two", and the verbatim lookup then fails for the whole report. */
  lemma CapitalisedCountFails()
    ensures var cm := CountMatchers(_ => true, _ => Some("Two"));
      && SpecimenAdenomasAsWritten(cm, "tubular adenoma, polyps x Two") == Err(KeyError("Two"))
      && SpecimenAdenomas(cm, "tubular adenoma, polyps x Two") == Ok(2)
      && ReportAdenomasAsWritten(cm, ["tubular adenoma, polyps x Two"]) == Err(KeyError("Two"))
      && ReportAdenomas(cm, ["tubular adenoma, polyps x Two"]) == Ok(2)
  {
    assert "Two" !in CountNames by {
      assert "Two" != "two" by { assert "Two"[0] != "two"[0]; }
    }
    assert Lower("Two") == "two";
    var one := ["tubular adenoma, polyps x Two"];
    assert one[..0] == [];
  }

  /**
   * One specimen's count as evidently intended: no adenoma counts 0, an
   * adenoma without a count phrase 1, and a count word gives its number
   * whatever its casing.
   */
  function SpecimenAdenomas(cm: CountMatchers, specimen: string): (r: Result<nat>)
    ensures !cm.isAdenoma(specimen) ==> r == Ok(0)
    ensures cm.isAdenoma(specimen) && cm.countWord(specimen).None? ==> r == Ok(1)
    ensures r.Ok? && cm.isAdenoma(specimen) ==> 1 <= r.value <= 9
    ensures r.Err? <==> cm.isAdenoma(specimen) && cm.countWord(specimen).Some? && Lower(cm.countWord(specimen).value) !in CountNames
  {
    if !cm.isAdenoma(specimen) then Ok(0)
    else match cm.countWord(specimen)
      case None => Ok(1)
      case Some(w) =>
        match NameValue(Lower(w))
          case Some(n) => Ok(n)
          case None => Err(KeyError(Lower(w)))
  }

  /** The specimens' counts summed in order; the first failing lookup is raised. */
  function ReportAdenomas(cm: CountMatchers, specimens: seq<string>): Result<nat>
  {
    if specimens == [] then Ok(0)
    else
      match ReportAdenomas(cm, specimens[..|specimens| - 1])
        case Err(e) => Err(e)
        case Ok(n) =>
          match SpecimenAdenomas(cm, specimens[|specimens| - 1])
            case Err(e) => Err(e)
            case Ok(k) => Ok(n + k)
  }

  /** How many specimens hold an adenoma. */
  function AdenomaSpecimens(cm: CountMatchers, specimens: seq<string>): nat
  {
    if specimens == [] then 0
    else AdenomaSpecimens(cm, specimens[..|specimens| - 1]) + (if cm.isAdenoma(specimens[|specimens| - 1]) then 1 else 0)
  }

  /** Each adenoma specimen counts between 1 and 9 polyps, and the others none. */
  lemma {:induction false} ReportAdenomasBounds(cm: CountMatchers, specimens: seq<string>)
    requires ReportAdenomas(cm, specimens).Ok?
    ensures var n := ReportAdenomas(cm, specimens).value;
      AdenomaSpecimens(cm, specimens) <= n <= 9 * AdenomaSpecimens(cm, specimens)
  {
    if specimens != [] {
      ReportAdenomasBounds(cm, specimens[..|specimens| - 1]);
    }
  }

  /** The first bin the count falls in: the index of the first cutoff above it, or |bins| (the top bin). */
  function Bin(count: int, bins: seq<int>): (r: nat)
    ensures r <= |bins|
    ensures forall j :: 0 <= j < r ==> bins[j] <= count
    ensures r < |bins| ==> count < bins[r]
  {
    if bins == [] then 0
    else if count < bins[0] then 0
    else 1 + Bin(count, bins[1..])
  }

  /** The cutoffs at or below the count. */
  function CutoffsReached(count: int, bins: seq<int>): nat
  {
    if bins == [] then 0 else (if bins[0] <= count then 1 else 0) + CutoffsReached(count, bins[1..])
  }

  predicate Ascending(bins: seq<int>) { forall i, j :: 0 <= i < j < |bins| ==> bins[i] <= bins[j] }

  /** With ascending cutoffs the bin is the number of cutoffs the count has reached. */
  lemma {:induction false} BinCountsCutoffs(count: int, bins: seq<int>)
    requires Ascending(bins)
    ensures Bin(count, bins) == CutoffsReached(count, bins)
  {
    if bins != [] {
      assert Ascending(bins[1..]) by {
        forall i, j | 0 <= i < j < |bins[1..]| ensures bins[1..][i] <= bins[1..][j] {
          assert bins[1..][i] == bins[i + 1] && bins[1..][j] == bins[j + 1];
        }
      }
      BinCountsCutoffs(count, bins[1..]);
      if count < bins[0] {
        CutoffsUnreached(count, bins[1..], bins[0]);
      }
    }
  }

  lemma {:induction false} CutoffsUnreached(count: int, bins: seq<int>, low: int)
    requires count < low && forall i :: 0 <= i < |bins| ==> low <= bins[i]
    ensures CutoffsReached(count, bins) == 0
  {
    if bins != [] {
      CutoffsUnreached(count, bins[1..], low);
    }
  }

  /** The score: the raw count without bins, else its bin. */
  function Score(count: int, bins: seq<int>): int { if bins == [] then count else Bin(count, bins) }

  /**
   * `get_adenoma_count(specimens, bins)`: the adenoma count summed over the
   * specimens, then binned (an empty or missing bins tuple gives the
   * count); a failing count-word lookup is raised.
   */
  method GetAdenomaCount(cm: CountMatchers, specimens: seq<string>, bins: seq<int>) returns (r: Result<int>)
    ensures ReportAdenomas(cm, specimens).Err? ==> r == Err(ReportAdenomas(cm, specimens).error)
    ensures ReportAdenomas(cm, specimens).Ok? ==> r == Ok(Score(ReportAdenomas(cm, specimens).value, bins))
  {
    var count := 0;
    var i := 0;
    while i < |specimens|
      invariant i <= |specimens|
      invariant ReportAdenomas(cm, specimens[..i]) == Ok(count)
    {
      assert specimens[..i + 1][..i] == specimens[..i];
      var specimen := specimens[i];
      if cm.isAdenoma(specimen) {
        var specCount := 1;
        var w := cm.countWord(specimen);
        if w.Some? {
          var n := NameValue(Lower(w.value));
          if n.None? {
            assert specimens[..i + 1][i] == specimen;
            ReportKeepsError(cm, specimens, i + 1);
            return Err(KeyError(Lower(w.value)));
          }
          specCount := n.value;
        }
        count := count + specCount;
      }
      i := i + 1;
    }
    assert specimens[..i] == specimens;
    if bins == [] {
      return Ok(count);
    }
    var k := 0;
    while k < |bins|
      invariant k <= |bins|
      invariant forall j :: 0 <= j < k ==> bins[j] <= count
    {
      if count < bins[k] {
        return Ok(k);
      }
      k := k + 1;
    }
    return Ok(|bins|);
  }

  /** An error in the first n specimens is the error of the whole report. */
  lemma {:induction false} ReportKeepsError(cm: CountMatchers, specimens: seq<string>, n: nat)
    requires n <= |specimens| && ReportAdenomas(cm, specimens[..n]).Err?
    ensures ReportAdenomas(cm, specimens) == ReportAdenomas(cm, specimens[..n])
  {
    if n < |specimens| {
      assert specimens[..|specimens| - 1][..n] == specimens[..n];
      ReportKeepsError(cm, specimens[..|specimens| - 1], n);
    } else {
      assert specimens[..n] == specimens;
    }
  }

  // ---------------------------------------------------------------- _get_adenoma_count

  /**
   * `_get_adenoma_count`'s flags: "more than greater_than" only when the
   * counter surely is, and "any" unless the counter is surely zero; a
   * "maybe" answer reads as no for the first and yes for the second.
   */
  function AdenomaFlags(count: Count, greaterThan: int): (r: (int, int, Count))
    ensures r.2 == count
    ensures (r.0 == 0 || r.0 == 1) && (r.1 == 0 || r.1 == 1)
    ensures r.0 == 1 <==> count.count > greaterThan || (count.count == greaterThan && count.greaterThan)
    ensures r.1 == 0 <==> count.count == 0 && IsExact(count)
  {
    (if Gt(count, greaterThan, GreaterThanLimit) == 1 then 1 else 0,
     if Eq(count, 0, GreaterThanLimit) == 1 then 0 else 1,
     count)
  }

  /** A counter that may be above (or at) greater_than without surely being so gives no first flag. */
  lemma MaybeAboveIsNo(count: Count, greaterThan: int)
    requires Gt(count, greaterThan, GreaterThanLimit) == 0
    ensures AdenomaFlags(count, greaterThan).0 == 0
  {
  }

  /**
   * `get_adenoma_count_advanced` and the distal, proximal, rectal and unknown
   * variants on the manager of a read report: the bucket's aggregate, by jar
   * or within jars, and its flags.
   */
  method AdenomaCountAdvanced(jm: JarManager, b: Bucket, greaterThan: int, jarCount: bool) returns (r: (int, int, Count))
    ensures r == AdenomaFlags(AdenomaTotal(jm.jars, if jarCount then OnePerJar else CountInJar, b), greaterThan)
  {
    var count := jm.GetAdenomaCount(if jarCount then OnePerJar else CountInJar, b);
    r := AdenomaFlags(count, greaterThan);
  }

  // ---------------------------------------------------------------- get_villous_histology

  /** The entry of a `get_histology` tuple a location reads. */
  function AtLocation(h: HistologyCounts, loc: Location): nat
  {
    match loc
      case Any => h.total
      case Proximal => h.proximal
      case Distal => h.distal
      case Rectal => h.rectal
      case UnknownLocation => h.unknown
  }

  /** 1 when tubulovillous or villous jars are counted at the location. */
  function VillousAt(tbv: HistologyCounts, vil: HistologyCounts, loc: Location): (r: int)
    ensures r == 0 || r == 1
    ensures r == 1 <==> AtLocation(tbv, loc) > 0 || AtLocation(vil, loc) > 0
  {
    if AtLocation(tbv, loc) + AtLocation(vil, loc) > 0 then 1 else 0
  }

  /** Villous histology at any one location is villous histology anywhere. */
  lemma VillousSomewhere(jars: seq<JarState>, loc: Location, allowMaybe: bool)
    requires VillousAt(HistologyTally(jars, Tubulovillous, allowMaybe), HistologyTally(jars, Villous, allowMaybe), loc) == 1
    ensures VillousAt(HistologyTally(jars, Tubulovillous, allowMaybe), HistologyTally(jars, Villous, allowMaybe), Any) == 1
  {
    HistologyBounded(jars, Tubulovillous, allowMaybe);
    HistologyBounded(jars, Villous, allowMaybe);
  }

  /** `get_villous_histology(pm, location, allow_maybe)` on the manager of a read report. */
  method VillousHistology(jm: JarManager, loc: Location, allowMaybe: bool) returns (r: int)
    ensures r == VillousAt(HistologyTally(jm.jars, Tubulovillous, allowMaybe), HistologyTally(jm.jars, Villous, allowMaybe), loc)
  {
    var tbv := jm.GetHistology(Tubulovillous, allowMaybe);
    var vil := jm.GetHistology(Villous, allowMaybe);
    r := VillousAt(tbv, vil, loc);
  }

  // ---------------------------------------------------------------- has_large_adenoma_broad

  /** A finding's `locations`, or a single None when it has none. */
  function FindingLocations(v: FindingValue): (r: seq<Option<Segment>>)
    ensures v.locations == [] ==> r == [None]
    ensures v.locations != [] ==> |r| == |v.locations| && forall i :: 0 <= i < |r| ==> r[i] == Some(v.locations[i])
  {
    if v.locations == [] then [None]
    else seq(|v.locations|, i requires 0 <= i < |v.locations| => Some(v.locations[i]))
  }

  /** Some listed finding has the location (None for one without locations). */
  predicate FoundAt(fs: seq<FindingValue>, x: Option<Segment>) { exists i :: 0 <= i < |fs| && x in FindingLocations(fs[i]) }

  lemma ItemsSnoc<T>(xs: seq<T>, j: nat)
    requires j < |xs|
    ensures Items(xs[..j + 1]) == Items(xs[..j]) + {xs[j]}
  {
    assert xs[..j + 1] == xs[..j] + [xs[j]];
  }

  lemma ItemsConcat<T>(xs: seq<T>, ys: seq<T>)
    ensures Items(xs + ys) == Items(xs) + Items(ys)
  {
    assert forall x :: x in xs + ys <==> x in xs || x in ys;
  }

  /** The locations of one finding added to a set: None for a finding without locations. */
  method AddLocationsOf(r0: set<Option<Segment>>, f: FindingValue) returns (r: set<Option<Segment>>)
    ensures r == r0 + Items(FindingLocations(f))
  {
    r := r0;
    if f.locations == [] {
      r := r + {None};
    }
    ghost var locs := FindingLocations(f);
    var j := 0;
    while j < |f.locations|
      invariant j <= |f.locations|
      invariant r == r0 + (if f.locations == [] then {None} else Items(locs[..j]))
    {
      ItemsSnoc(locs, j);
      r := r + {Some(f.locations[j])};
      j := j + 1;
    }
    if f.locations != [] {
      assert locs[..j] == locs;
    }
  }

  /** The loop of `has_large_adenoma_broad` adding the locations of the large colonoscopy findings. */
  method AddFindingLocations(s2: set<Option<Segment>>, fs: seq<FindingValue>) returns (r: set<Option<Segment>>)
    ensures r == s2 + Items(LargeLocations(fs))
  {
    r := s2;
    var i := 0;
    while i < |fs|
      invariant i <= |fs|
      invariant r == s2 + Items(LargeLocations(fs[..i]))
    {
      r := AddLocationsOf(r, fs[i]);
      assert fs[..i + 1][..i] == fs[..i];
      ItemsConcat(LargeLocations(fs[..i]), FindingLocations(fs[i]));
      i := i + 1;
    }
    assert fs[..i] == fs;
  }

  /** Two locations meet when they are equal or either is unknown (None). */
  predicate Meet(a: Option<Segment>, b: Option<Segment>) { a == b || a.None? || b.None? }

  /**
   * `has_large_adenoma_broad`'s test on the adenoma locations s and the
   * large-polyp locations s2: a shared location, or an unknown location on
   * one side while the other has any.
   */
  function BroadDecision(s: set<Option<Segment>>, s2: set<Option<Segment>>): (r: int)
    ensures r == 0 || r == 1
  {
    if s * s2 != {} || (s2 != {} && None in s) || (s != {} && None in s2) then 1 else 0
  }

  /** The test is 1 exactly when some adenoma location meets some large-polyp location. */
  lemma BroadMeets(s: set<Option<Segment>>, s2: set<Option<Segment>>)
    ensures BroadDecision(s, s2) == 1 <==> exists a, b :: a in s && b in s2 && Meet(a, b)
  {
    if BroadDecision(s, s2) == 1 {
      if s * s2 != {} {
        var a :| a in s * s2;
        assert Meet(a, a);
      } else if s2 != {} && None in s {
        var b :| b in s2;
        assert Meet(None, b);
      } else {
        var a :| a in s;
        assert Meet(a, None);
      }
    }
    if exists a, b :: a in s && b in s2 && Meet(a, b) {
      var a, b :| a in s && b in s2 && Meet(a, b);
      if a == b {
        assert a in s * s2;
      }
    }
  }

  /** Every location of the findings, in order. */
  function LargeLocations(fs: seq<FindingValue>): seq<Option<Segment>>
  {
    if fs == [] then [] else LargeLocations(fs[..|fs| - 1]) + FindingLocations(fs[|fs| - 1])
  }

  /** A location is listed exactly when some finding has it (None for one without locations). */
  lemma {:induction false} LargeLocationsFound(fs: seq<FindingValue>, x: Option<Segment>)
    ensures x in LargeLocations(fs) <==> FoundAt(fs, x)
  {
    if fs != [] {
      var front := fs[..|fs| - 1];
      LargeLocationsFound(front, x);
      if FoundAt(fs, x) {
        var k :| 0 <= k < |fs| && x in FindingLocations(fs[k]);
        if k < |fs| - 1 {
          assert front[k] == fs[k];
        }
      }
      if FoundAt(front, x) {
        var k :| 0 <= k < |front| && x in FindingLocations(front[k]);
        assert front[k] == fs[k];
      }
    }
  }

  /**
   * The broad test on what the getters yield: the pathology's adenoma
   * locations, its large-polyp locations and the large colonoscopy findings.
   */
  function BroadOf(adenoma: seq<Option<Segment>>, sized: seq<Option<Segment>>, large: seq<FindingValue>): int
  {
    BroadDecision(Items(adenoma), Items(sized) + Items(LargeLocations(large)))
  }

  /** The body of `has_large_adenoma_broad` after the queries. */
  method BroadOn(adenoma: seq<Option<Segment>>, sized: seq<Option<Segment>>, large: seq<FindingValue>) returns (r: int)
    ensures r == BroadOf(adenoma, sized, large)
  {
    var s2 := AddFindingLocations(Items(sized), large);
    r := BroadDecision(Items(adenoma), s2);
  }

  /** The broad decision from the jars once read and the colonoscopy's findings (none after a precise run). */
  ghost function BroadOutcome(jars: seq<JarState>, findings: Option<Cspy.Entries>, minSize: real): Result<int>
    requires AllWf(jars)
  {
    if findings.None? then Err(AttributeError("items"))
    else Ok(BroadOf(LocationsWith(jars, WithAdenoma), LocationsWith(jars, MinSize(minSize)), Cspy.OfSize(findings.value, minSize)))
  }

  /** `has_large_adenoma_broad(pm, cm, min_size)` on the manager of a read report. */
  method HasLargeAdenomaBroad(jm: JarManager, cm: Cspy.CspyManager, minSize: real) returns (r: Result<int>)
    requires jm.Valid()
    ensures r == BroadOutcome(jm.jars, cm.findings, minSize)
  {
    var s := jm.GetLocationsWith(WithAdenoma);
    var s2 := jm.GetLocationsWith(MinSize(minSize));
    var fs := cm.FindingsOfSize(minSize);
    if fs.Err? {
      return Err(fs.error);
    }
    var d := BroadOn(s, s2, fs.value);
    return Ok(d);
  }

  // ---------------------------------------------------------------- has_large_adenoma_precise

  /** Every finding of every section, in order. */
  function AllFindings(es: Cspy.Entries): seq<FindingValue>
  {
    if es == [] then [] else AllFindings(es[..|es| - 1]) + es[|es| - 1].1
  }

  /** A colonoscopy finding counted as large: its size is known and at least min_size. */
  predicate LargeFinding(v: FindingValue, minSize: real) { v.size.Some? && v.size.value >= minSize }

  /** The locations of the large findings and those of the others, in order. */
  function BySize(fs: seq<FindingValue>, minSize: real): (seq<Option<Segment>>, seq<Option<Segment>>)
  {
    if fs == [] then ([], [])
    else
      var front := BySize(fs[..|fs| - 1], minSize);
      var v := fs[|fs| - 1];
      if LargeFinding(v, minSize) then (front.0 + FindingLocations(v), front.1)
      else (front.0, front.1 + FindingLocations(v))
  }

  /** Every location of the findings lands in exactly one of the two lists. */
  lemma {:induction false} BySizeSplits(fs: seq<FindingValue>, minSize: real)
    ensures multiset(BySize(fs, minSize).0) + multiset(BySize(fs, minSize).1) == multiset(LargeLocations(fs))
  {
    if fs != [] {
      BySizeSplits(fs[..|fs| - 1], minSize);
    }
  }

  /** There are large locations exactly when some finding is large. */
  lemma {:induction false} BySizeLarge(fs: seq<FindingValue>, minSize: real)
    ensures BySize(fs, minSize).0 == [] <==> forall i :: 0 <= i < |fs| ==> !LargeFinding(fs[i], minSize)
  {
    if fs != [] {
      var front := fs[..|fs| - 1];
      BySizeLarge(front, minSize);
      assert forall i :: 0 <= i < |front| ==> front[i] == fs[i];
    }
  }

  /** The loop over the findings sorting their locations into large and small. */
  method SortBySize(fs: seq<FindingValue>, minSize: real) returns (large: seq<Option<Segment>>, small: seq<Option<Segment>>)
    ensures (large, small) == BySize(fs, minSize)
  {
    large, small := [], [];
    var i := 0;
    while i < |fs|
      invariant i <= |fs|
      invariant (large, small) == BySize(fs[..i], minSize)
    {
      assert fs[..i + 1][..i] == fs[..i];
      var f := fs[i];
      if f.size.Some? && f.size.value >= minSize {
        large := large + FindingLocations(f);
      } else {
        small := small + FindingLocations(f);
      }
      i := i + 1;
    }
    assert fs[..i] == fs;
  }

  /**
   * A pathology adenoma location is surely large: cspy saw a large polyp
   * there and no small one, or the pathology has at least as many adenomas
   * there as cspy has polyps.
   */
  predicate SureLarge(loc: Option<Segment>, pa: seq<Option<Segment>>, cl: seq<Option<Segment>>, cs: seq<Option<Segment>>)
  {
    loc in cl && (loc !in cs || multiset(pa)[loc] >= multiset(cl)[loc] + multiset(cs)[loc])
  }

  /** A location is maybe large: cspy saw large and small polyps there, more than the pathology's adenomas. */
  predicate MaybeLarge(loc: Option<Segment>, pa: seq<Option<Segment>>, cl: seq<Option<Segment>>, cs: seq<Option<Segment>>)
  {
    loc in cl && loc in cs && multiset(pa)[loc] < multiset(cl)[loc] + multiset(cs)[loc]
  }

  /** The decision after the early exit: 1 for a surely large adenoma, else 9 for a maybe, else 0. */
  function PreciseDecision(pa: seq<Option<Segment>>, cl: seq<Option<Segment>>, cs: seq<Option<Segment>>): (r: int)
    ensures r == 0 || r == 1 || r == 9
    ensures cl == [] ==> r == 0
  {
    if exists i :: 0 <= i < |pa| && SureLarge(pa[i], pa, cl, cs) then 1
    else if exists i :: 0 <= i < |pa| && MaybeLarge(pa[i], pa, cl, cs) then 9
    else 0
  }

  /** The loop over the pathology's adenoma locations (list counts are multiset multiplicities). */
  method Decide(pa: seq<Option<Segment>>, cl: seq<Option<Segment>>, cs: seq<Option<Segment>>) returns (r: int)
    ensures r == PreciseDecision(pa, cl, cs)
  {
    if cl == [] {
      return 0;
    }
    var hasMaybe := false;
    var i := 0;
    while i < |pa|
      invariant i <= |pa|
      invariant forall j :: 0 <= j < i ==> !SureLarge(pa[j], pa, cl, cs)
      invariant hasMaybe <==> exists j :: 0 <= j < i && MaybeLarge(pa[j], pa, cl, cs)
    {
      var loc := pa[i];
      if loc in cl {
        if loc in cs {
          if multiset(pa)[loc] < multiset(cl)[loc] + multiset(cs)[loc] {
            hasMaybe := true;
          } else {
            assert SureLarge(pa[i], pa, cl, cs);
            return 1;
          }
        } else {
          assert SureLarge(pa[i], pa, cl, cs);
          return 1;
        }
      }
      i := i + 1;
    }
    return if hasMaybe then 9 else 0;
  }

  /**
   * `has_large_adenoma_precise` as evidently intended, on the pathology's
   * large-adenoma locations, its adenoma locations of unknown or small size,
   * and the colonoscopy's findings: 1 at once for a large adenoma in the
   * pathology, 0 when no finding is large, else the decision.
   */
  function PreciseOf(large: seq<Option<Segment>>, pa: seq<Option<Segment>>, es: Cspy.Entries, minSize: real): (r: int)
    ensures r == 0 || r == 1 || r == 9
    ensures large != [] ==> r == 1
    ensures large == [] && (forall i :: 0 <= i < |AllFindings(es)| ==> !LargeFinding(AllFindings(es)[i], minSize)) ==> r == 0
  {
    BySizeLarge(AllFindings(es), minSize);
    if large != [] then 1
    else
      var split := BySize(AllFindings(es), minSize);
      PreciseDecision(pa, split.0, split.1)
  }

  /**
   * `has_large_adenoma_precise` as written: past the early exit it iterates
   * `cm.get_findings()`, a dictionary, so it reads `.size` of a section
   * label and fails unless there are no findings at all.
   */
  function PreciseAsWritten(large: seq<Option<Segment>>, pa: seq<Option<Segment>>, es: Cspy.Entries, minSize: real): (r: Result<int>)
    ensures r.Ok? ==> r.value == 0 || r.value == 1
  {
    if large != [] then Ok(1)
    else if es == [] then Ok(0)
    else Err(AttributeError("size"))
  }

  /** An adenoma of unknown size at the cecum and a 12 mm polyp there: the code fails where 1 is meant. */
  lemma PreciseAsWrittenFails()
    ensures var es := [("Findings", [FindingValue(None, 1, true, [Cecum], Some(12.0))])];
      PreciseAsWritten([], [Some(Cecum)], es, 10.0) == Err(AttributeError("size")) &&
      PreciseOf([], [Some(Cecum)], es, 10.0) == 1
  {
    var v := FindingValue(None, 1, true, [Cecum], Some(12.0));
    var es := [("Findings", [v])];
    assert AllFindings(es) == [v] by { assert es[..0] == []; }
    LargeCecumSplit(v);
    assert SureLarge([Some(Cecum)][0], [Some(Cecum)], [Some(Cecum)], []);
  }

  lemma LargeCecumSplit(v: FindingValue)
    requires v == FindingValue(None, 1, true, [Cecum], Some(12.0))
    ensures BySize([v], 10.0) == ([Some(Cecum)], [])
  {
    assert [v][..0] == [];
    assert FindingLocations(v) == [Some(Cecum)];
    assert [] + [Some(Cecum)] == [Some(Cecum)];
  }

  /** The large-adenoma decision from the jars of a read report and the colonoscopy's broad findings. */
  ghost function PreciseOutcome(jars: seq<JarState>, findings: Result<Option<Cspy.Entries>>, minSize: real): Result<int>
    requires AllWf(jars)
  {
    var large := LocationsWith(jars, AdenomaMinSize(10.0));
    if large != [] then Ok(1)
    else
      match findings
        case Err(e) => Err(e)
        case Ok(None) => Err(TypeError("'NoneType' object is not iterable"))
        case Ok(Some(es)) =>
          Ok(PreciseOf(large, LocationsWith(jars, AdenomaUnknownSize) + LocationsWith(jars, AdenomaMaxSize(minSize)), es, minSize))
  }

  /**
   * `has_large_adenoma_precise(pm, cm, min_size)` on the manager of a read
   * report, reading every finding of `cm.get_findings()` (the broad findings
   * of the manager's sections).
   */
  method HasLargeAdenomaPrecise(jm: JarManager, cm: Cspy.CspyManager, minSize: real, rx: Cspy.Regexes) returns (r: Result<int>)
    requires jm.Valid()
    ensures r == PreciseOutcome(jm.jars, Cspy.FindingsOf(Cspy.Broad, rx, cm.sections), minSize)
  {
    var large := jm.GetLocationsWith(AdenomaMinSize(10.0));
    if large != [] {
      return Ok(1);
    }
    var unknown := jm.GetLocationsWith(AdenomaUnknownSize);
    var small := jm.GetLocationsWith(AdenomaMaxSize(minSize));
    var pathAdenoma := unknown + small;
    var findings := cm.GetFindings(Cspy.Broad, rx);
    if findings.Err? {
      return Err(findings.error);
    }
    if findings.value.None? {
      return Err(TypeError("'NoneType' object is not iterable"));
    }
    var cl, cs := SortBySize(AllFindings(findings.value.value), minSize);
    var d := Decide(pathAdenoma, cl, cs);
    return Ok(d);
  }

  /** `has_large_adenoma(pm, cm, min_size, version)`: the broad or the precise decision. */
  method HasLargeAdenoma(jm: JarManager, cm: Cspy.CspyManager, minSize: real, version: Cspy.Version, rx: Cspy.Regexes) returns (r: Result<int>)
    requires jm.Valid()
    ensures version == Cspy.Broad ==> r == BroadOutcome(jm.jars, cm.findings, minSize)
    ensures version == Cspy.Precise ==> r == PreciseOutcome(jm.jars, Cspy.FindingsOf(Cspy.Broad, rx, cm.sections), minSize)
  {
    if version == Cspy.Broad {
      r := HasLargeAdenomaBroad(jm, cm, minSize);
    } else {
      r := HasLargeAdenomaPrecise(jm, cm, minSize, rx);
    }
  }
}
