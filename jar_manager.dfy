/**
 * JarManager: the jars of one pathology report, built one diagnosis section
 * at a time by the rule walk, placed in location buckets by `postprocess`,
 * and summed up by the `get_*` aggregates the scoring reads.
 *
 * The aggregates are specified as functions over the sequence of jar states;
 * the manager's methods loop over its jars as the source does and are proved
 * against those functions.
 */
module JarManagers {
  import opened Wrappers
  import opened Text
  import opened Enums
  import opened MaybeCounters
  import opened Utils
  import opened PathWords
  import opened PathSections
  import opened Patterns
  import opened Jars
  import opened JarWalk

  // ---------------------------------------------------------------- generic tallies

  /** How many of the jars satisfy p. */
  function CountWhere(jars: seq<JarState>, p: JarState -> bool): (r: nat)
    ensures r <= |jars|
  {
    if jars == [] then 0
    else CountWhere(jars[..|jars| - 1], p) + (if p(jars[|jars| - 1]) then 1 else 0)
  }

  /** No jar counts exactly when none satisfies p; every jar counts exactly when all do. */
  lemma {:induction false} CountWhereExtremes(jars: seq<JarState>, p: JarState -> bool)
    ensures CountWhere(jars, p) == 0 <==> forall i :: 0 <= i < |jars| ==> !p(jars[i])
    ensures CountWhere(jars, p) == |jars| <==> forall i :: 0 <= i < |jars| ==> p(jars[i])
  {
    if jars != [] {
      var front := jars[..|jars| - 1];
      CountWhereExtremes(front, p);
      assert forall i :: 0 <= i < |front| ==> front[i] == jars[i];
    }
  }

  // ---------------------------------------------------------------- postprocess

  /**
   * One positional counter after `postprocess`: the jar's adenoma count when
   * the jar is in the bucket; with allow_maybe and a jar that may be in it, an
   * "at least" mark when there are adenomas; otherwise it is left as it was.
   */
  function Positioned(pos: Count, adenoma: Count, inBucket: bool, maybeInBucket: bool, allowMaybe: bool): (r: Count)
    ensures inBucket ==> r == adenoma
    ensures !inBucket && (!allowMaybe || !maybeInBucket || !Truthy(adenoma)) ==> r == pos
    ensures !inBucket && allowMaybe && maybeInBucket && Truthy(adenoma) ==>
              r.count == pos.count + Bump(pos.greaterThan) && r.atLeast && !r.greaterThan
  {
    if inBucket then adenoma
    else if allowMaybe && maybeInBucket then (if Truthy(adenoma) then Added(pos, 0, false, true) else pos)
    else pos
  }

  /** No bucket took the jar: `len(counts) == 3`. */
  predicate Unplaced(s: JarState, allowMaybe: bool) {
    !IsDistal(s) && !(allowMaybe && MaybeDistal(s)) &&
    !IsProximal(s) && !(allowMaybe && MaybeProximal(s)) &&
    !IsRectal(s) && !(allowMaybe && MaybeRectal(s))
  }

  /** A jar after `postprocess(allow_maybe)`: only the four positional counters change. */
  function Postprocessed(s: JarState, allowMaybe: bool): (r: JarState)
    ensures r.(adenomaDistal := s.adenomaDistal, adenomaProximal := s.adenomaProximal,
               adenomaRectal := s.adenomaRectal, adenomaUnknown := s.adenomaUnknown) == s
    ensures Wf(r) <==> Wf(s)
  {
    s.(adenomaDistal := Positioned(s.adenomaDistal, s.adenomaCount, IsDistal(s), MaybeDistal(s), allowMaybe),
       adenomaProximal := Positioned(s.adenomaProximal, s.adenomaCount, IsProximal(s), MaybeProximal(s), allowMaybe),
       adenomaRectal := Positioned(s.adenomaRectal, s.adenomaCount, IsRectal(s), MaybeRectal(s), allowMaybe),
       adenomaUnknown := if Unplaced(s, allowMaybe) then s.adenomaCount else s.adenomaUnknown)
  }

  /** The positional counters of a jar nobody has placed yet: all zero, as a new jar has them. */
  predicate Unpositioned(s: JarState) {
    s.adenomaDistal == Exact(0) && s.adenomaProximal == Exact(0) &&
    s.adenomaRectal == Exact(0) && s.adenomaUnknown == Exact(0)
  }

  /**
   * With the default settings each positional counter of an unplaced jar
   * becomes the adenoma count exactly when the jar is in that bucket and
   * stays zero otherwise; the unknown counter takes the count only when no
   * bucket did.
   */
  lemma PostprocessDefault(s: JarState)
    requires Unpositioned(s)
    ensures var r := Postprocessed(s, false);
      r.adenomaDistal == (if IsDistal(s) then s.adenomaCount else Exact(0)) &&
      r.adenomaProximal == (if IsProximal(s) then s.adenomaCount else Exact(0)) &&
      r.adenomaRectal == (if IsRectal(s) then s.adenomaCount else Exact(0)) &&
      r.adenomaUnknown == (if !IsDistal(s) && !IsProximal(s) && !IsRectal(s) then s.adenomaCount else Exact(0))
  {
  }

  /** Running postprocess a second time changes nothing. */
  lemma PostprocessIdempotent(s: JarState, allowMaybe: bool)
    ensures Postprocessed(Postprocessed(s, allowMaybe), allowMaybe) == Postprocessed(s, allowMaybe)
  {
    var r := Postprocessed(s, allowMaybe);
    assert IsDistal(r) == IsDistal(s) && IsProximal(r) == IsProximal(s) && IsRectal(r) == IsRectal(s);
    assert MaybeDistal(r) == MaybeDistal(s) && MaybeProximal(r) == MaybeProximal(s) && MaybeRectal(r) == MaybeRectal(s);
  }

  /** The body of postprocess's loop for one jar, with its `counts` list kept as a length. */
  method PostprocessJar(s: JarState, allowMaybe: bool) returns (r: JarState)
    ensures r == Postprocessed(s, allowMaybe)
  {
    r := s;
    var counts := 0;
    if IsDistal(s) {
      r := r.(adenomaDistal := s.adenomaCount);
    } else if allowMaybe && MaybeDistal(s) {
      if Truthy(s.adenomaCount) {
        r := r.(adenomaDistal := Added(r.adenomaDistal, 0, false, true));
      }
    } else {
      counts := counts + 1;
    }
    if IsProximal(s) {
      r := r.(adenomaProximal := s.adenomaCount);
    } else if allowMaybe && MaybeProximal(s) {
      if Truthy(s.adenomaCount) {
        r := r.(adenomaProximal := Added(r.adenomaProximal, 0, false, true));
      }
    } else {
      counts := counts + 1;
    }
    if IsRectal(s) {
      r := r.(adenomaRectal := s.adenomaCount);
    } else if allowMaybe && MaybeRectal(s) {
      if Truthy(s.adenomaCount) {
        r := r.(adenomaRectal := Added(r.adenomaRectal, 0, false, true));
      }
    } else {
      counts := counts + 1;
    }
    if counts == 3 {
      r := r.(adenomaUnknown := s.adenomaCount);
    }
  }

  // ---------------------------------------------------------------- adenoma counts

  /** Which of a jar's adenoma counters an aggregate reads. */
  datatype Bucket = AllBuckets | DistalBucket | ProximalBucket | RectalBucket | UnknownBucket

  function BucketCount(s: JarState, b: Bucket): Count {
    match b
      case AllBuckets => s.adenomaCount
      case DistalBucket => s.adenomaDistal
      case ProximalBucket => s.adenomaProximal
      case RectalBucket => s.adenomaRectal
      case UnknownBucket => s.adenomaUnknown
  }

  /** `count += ...` for one jar: the jar's counter itself, or 1 when it is truthy. */
  function Tally(acc: Count, c: Count, m: AdenomaCountMethod): Count {
    if m == CountInJar then Plus(acc, c) else PlusInt(acc, if Truthy(c) then 1 else 0)
  }

  /** The aggregate `get_adenoma_*count(method)` returns, starting from `MaybeCounter(0)`. */
  function AdenomaTotal(jars: seq<JarState>, m: AdenomaCountMethod, b: Bucket): Count {
    if jars == [] then Exact(0)
    else Tally(AdenomaTotal(jars[..|jars| - 1], m, b), BucketCount(jars[|jars| - 1], b), m)
  }

  /** The plain sum of the counts, each "more than" read as one more. */
  function CountSum(jars: seq<JarState>, b: Bucket): int {
    if jars == [] then 0
    else
      var c := BucketCount(jars[|jars| - 1], b);
      CountSum(jars[..|jars| - 1], b) + c.count + Bump(c.greaterThan)
  }

  /** Some jar's counter in the bucket is qualified. */
  predicate AnyQualified(jars: seq<JarState>, b: Bucket) {
    exists i :: 0 <= i < |jars| && (BucketCount(jars[i], b).atLeast || BucketCount(jars[i], b).greaterThan)
  }

  /**
   * COUNT_IN_JAR is the sum over the jars: its count is the sum of the
   * counts (a "more than" adds one), it is never "more than", and it is
   * "at least" exactly when some jar's counter is qualified.
   */
  lemma {:induction false} CountInJarIsSum(jars: seq<JarState>, b: Bucket)
    ensures var r := AdenomaTotal(jars, CountInJar, b);
      r.count == CountSum(jars, b) && !r.greaterThan && (r.atLeast <==> AnyQualified(jars, b))
  {
    if jars != [] {
      var front := jars[..|jars| - 1];
      CountInJarIsSum(front, b);
      assert forall i :: 0 <= i < |front| ==> front[i] == jars[i];
      if AnyQualified(jars, b) && !AnyQualified(front, b) {
        var i :| 0 <= i < |jars| && (BucketCount(jars[i], b).atLeast || BucketCount(jars[i], b).greaterThan);
        assert i == |jars| - 1;
      }
    }
  }

  /** ONE_PER_JAR counts the jars whose counter in the bucket is truthy. */
  lemma {:induction false} OnePerJarCountsJars(jars: seq<JarState>, b: Bucket)
    ensures AdenomaTotal(jars, OnePerJar, b) == Exact(CountWhere(jars, s => Truthy(BucketCount(s, b))))
  {
    if jars != [] {
      OnePerJarCountsJars(jars[..|jars| - 1], b);
    }
  }

  // ---------------------------------------------------------------- histology

  /** `get_histology`'s tuple (total, proximal, distal, rectal, unknown). */
  datatype HistologyCounts = HistologyCounts(total: nat, proximal: nat, distal: nat, rectal: nat, unknown: nat)

  /** One jar's contribution: colon jars with the category count, once per bucket they are (maybe) in. */
  function HistologyStep(acc: HistologyCounts, s: JarState, h: Histology, allowMaybe: bool): HistologyCounts {
    if !AllInColon(s) || h !in s.histologies then acc
    else
      var p := IsProximal(s) || (allowMaybe && MaybeProximal(s));
      var d := IsDistal(s) || (allowMaybe && MaybeDistal(s));
      var r := IsRectal(s) || (allowMaybe && MaybeRectal(s));
      HistologyCounts(acc.total + 1, acc.proximal + Bump(p), acc.distal + Bump(d), acc.rectal + Bump(r),
                      acc.unknown + Bump(!p && !d && !r))
  }

  function HistologyTally(jars: seq<JarState>, h: Histology, allowMaybe: bool): HistologyCounts {
    if jars == [] then HistologyCounts(0, 0, 0, 0, 0)
    else HistologyStep(HistologyTally(jars[..|jars| - 1], h, allowMaybe), jars[|jars| - 1], h, allowMaybe)
  }

  /**
   * The total is the number of colon jars with the category, and no bucket
   * (nor the unknown count) exceeds it.
   */
  lemma {:induction false} HistologyBounded(jars: seq<JarState>, h: Histology, allowMaybe: bool)
    ensures var r := HistologyTally(jars, h, allowMaybe);
      r.total == CountWhere(jars, s => AllInColon(s) && h in s.histologies) &&
      r.proximal <= r.total && r.distal <= r.total && r.rectal <= r.total && r.unknown <= r.total
  {
    if jars != [] {
      HistologyBounded(jars[..|jars| - 1], h, allowMaybe);
    }
  }

  /** Without allow_maybe, a jar counted as unknown is in no bucket, so unknown and any one bucket fit in the total. */
  lemma {:induction false} HistologyUnknownApart(jars: seq<JarState>, h: Histology)
    ensures var r := HistologyTally(jars, h, false);
      r.unknown + r.proximal <= r.total && r.unknown + r.distal <= r.total && r.unknown + r.rectal <= r.total
  {
    if jars != [] {
      HistologyUnknownApart(jars[..|jars| - 1], h);
    }
  }

  /**
   * The body of get_histology's loop for one jar, with its `counts` list kept
   * as a length; each `if is_X / elif allow_maybe and maybe_X` pair adds one
   * either way, so it is one test here.
   */
  method HistologyJar(acc: HistologyCounts, s: JarState, h: Histology, allowMaybe: bool) returns (r: HistologyCounts)
    ensures r == HistologyStep(acc, s, h, allowMaybe)
  {
    r := acc;
    if !AllInColon(s) || h !in s.histologies {
      return;
    }
    var p := IsProximal(s) || (allowMaybe && MaybeProximal(s));
    var d := IsDistal(s) || (allowMaybe && MaybeDistal(s));
    var q := IsRectal(s) || (allowMaybe && MaybeRectal(s));
    var counts := 0;
    r := r.(total := r.total + 1);
    if p {
      r := r.(proximal := r.proximal + 1);
    } else {
      counts := counts + 1;
    }
    if d {
      r := r.(distal := r.distal + 1);
    } else {
      counts := counts + 1;
    }
    if q {
      r := r.(rectal := r.rectal + 1);
    } else {
      counts := counts + 1;
    }
    if counts == 3 {
      r := r.(unknown := r.unknown + 1);
    }
  }

  // ---------------------------------------------------------------- dysplasia

  predicate PositiveDysplasia(s: JarState) { s.dysplasia.positive > 0 }
  predicate NegativeDysplasia(s: JarState) { s.dysplasia.negative > 0 }

  // ---------------------------------------------------------------- carcinoma

  /**
   * `not_only_colonic_melanoma`: a rectal jar, or one with a recorded cancer
   * whose words do not mention melanoma (a jar with no cancer recorded fails).
   */
  predicate NotOnlyColonicMelanoma(s: JarState) {
    IsRectal(s) || exists i :: 0 <= i < |s.carcinomaList| && !Contains(s.carcinomaList[i].term, "melanoma")
  }

  /** A jar `get_sessile_serrated_count` counts. */
  predicate SessileSerratedJar(s: JarState) { s.ssaCount > 0 }

  /** A jar `get_carcinoma_count` counts. */
  predicate CarcinomaJar(s: JarState) { AllInColon(s) && s.carcinomas > 0 && NotOnlyColonicMelanoma(s) }

  /** A jar the maybe counts look at. */
  predicate MaybeCandidate(s: JarState) { AllInColon(s) && NotOnlyColonicMelanoma(s) }

  /**
   * `get_carcinoma_maybe_count`'s loop without the jar_count check: a
   * candidate with `carcinomas_maybe` counts; otherwise, unless
   * probable_only, the loop reads `carcinomas_possible`, a field no Jar has.
   */
  function MaybeTally(jars: seq<JarState>, probableOnly: bool): (r: Result<nat>)
    ensures r.Ok? ==> r.value <= |jars|
  {
    if jars == [] then Ok(0)
    else
      var s := jars[|jars| - 1];
      match MaybeTally(jars[..|jars| - 1], probableOnly)
        case Err(e) => Err(e)
        case Ok(n) =>
          if !MaybeCandidate(s) then Ok(n)
          else if s.carcinomasMaybe != 0 then Ok(n + 1)
          else if !probableOnly then Err(AttributeError("carcinomas_possible"))
          else Ok(n)
  }

  /**
   * With probable_only the maybe count is the number of candidate jars with a
   * probable or possible carcinoma; without it, it fails exactly when some
   * candidate has none.
   */
  lemma {:induction false} MaybeTallyCounts(jars: seq<JarState>, probableOnly: bool)
    ensures probableOnly ==> MaybeTally(jars, true) == Ok(CountWhere(jars, s => MaybeCandidate(s) && s.carcinomasMaybe != 0))
    ensures !probableOnly ==>
      (MaybeTally(jars, false).Ok? <==> forall i :: 0 <= i < |jars| && MaybeCandidate(jars[i]) ==> jars[i].carcinomasMaybe != 0)
  {
    if jars != [] {
      var front := jars[..|jars| - 1];
      MaybeTallyCounts(front, probableOnly);
      assert forall i :: 0 <= i < |front| ==> front[i] == jars[i];
    }
  }

  // ---------------------------------------------------------------- locations of selected jars

  /** The jar tests of the `get_location(s)_with_*` generators. */
  datatype Selection =
    | WithAdenoma
    | AdenomaMinSize(minSize: real)
    | AdenomaMaxSize(maxSize: real)
    | AdenomaUnknownSize
    | MinSize(minSize: real)
    | MaxSize(maxSize: real)

  predicate Selects(sel: Selection, s: JarState)
    requires Wf(s)
  {
    match sel
      case WithAdenoma => HasAdenoma(s)
      case AdenomaMinSize(t) => HasAdenoma(s) && HasMinSize(s, t)
      case AdenomaMaxSize(t) => HasAdenoma(s) && HasMaxSize(s, t)
      case AdenomaUnknownSize => HasAdenoma(s) && HasUnknownSize(s)
      case MinSize(t) => HasMinSize(s, t)
      case MaxSize(t) => HasMaxSize(s, t)
  }

  predicate AllWf(jars: seq<JarState>) { forall i :: 0 <= i < |jars| ==> Wf(jars[i]) }

  /** What the generator yields: `locations_or_none()` of each selected jar, in jar order. */
  function LocationsWith(jars: seq<JarState>, sel: Selection): seq<Option<Segment>>
    requires AllWf(jars)
  {
    if jars == [] then []
    else
      var s := jars[|jars| - 1];
      LocationsWith(jars[..|jars| - 1], sel) + (if Selects(sel, s) then LocationsOrNone(s) else [])
  }

  /** A location is yielded exactly when some selected jar has it (or None, for a selected jar without locations). */
  lemma {:induction false} LocationsWithMembers(jars: seq<JarState>, sel: Selection, x: Option<Segment>)
    requires AllWf(jars)
    ensures x in LocationsWith(jars, sel) <==>
            exists i :: 0 <= i < |jars| && Selects(sel, jars[i]) && x in LocationsOrNone(jars[i])
  {
    if jars != [] {
      var front := jars[..|jars| - 1];
      assert forall i :: 0 <= i < |front| ==> front[i] == jars[i];
      LocationsWithMembers(front, sel, x);
    }
  }

  /** Every location of a jar, whether selected or not. */
  function LocationTotal(jars: seq<JarState>): nat {
    if jars == [] then 0 else LocationTotal(jars[..|jars| - 1]) + |LocationsOrNone(jars[|jars| - 1])|
  }

  /**
   * When every jar has a size, the minimum- and maximum-size generators at one
   * threshold split the jars' locations between them.
   */
  lemma {:induction false} SizesSplitLocations(jars: seq<JarState>, t: real)
    requires AllWf(jars) && forall i :: 0 <= i < |jars| ==> jars[i].polypSize != []
    ensures |LocationsWith(jars, MinSize(t))| + |LocationsWith(jars, MaxSize(t))| == LocationTotal(jars)
  {
    if jars != [] {
      var front := jars[..|jars| - 1];
      assert forall i :: 0 <= i < |front| ==> front[i] == jars[i];
      SizesSplitLocations(front, t);
      MinMaxComplement(jars[|jars| - 1], t);
    }
  }

  // ---------------------------------------------------------------- find_locations

  /** One word of `find_locations`: a location, or a depth from 10 cm on; a smaller number is skipped. */
  function LocateStep(ws: seq<PathWord>, c: nat, st: JarState): (r: JarState)
    requires c < |ws|
    ensures LocatesOnly(st, r)
  {
    if IsIn(ws[c], AnyOf(LocationKeys)) then LocationArm(ws, c, st)
    else if Measure(ws, c, "cm") && JarWalk.Measured(ws, c, "cm") >= 10.0 then WithDepth(st, JarWalk.Measured(ws, c, "cm"))
    else st
  }

  /** find_locations only adds locations and sets the depth: every other field, and every earlier location, is kept. */
  function LocateWalk(ws: seq<PathWord>, n: nat, st: JarState): (r: JarState)
    requires n <= |ws|
    ensures LocatesOnly(st, r)
  {
    if n == 0 then st
    else
      var prev := LocateWalk(ws, n - 1, st);
      var next := LocateStep(ws, n - 1, prev);
      LocatesOnlyTransitive(st, prev, next);
      next
  }

  /** `find_locations` on a jar: nothing happens to a jar that already has locations. */
  function Located(ws: seq<PathWord>, st: JarState): JarState {
    if st.locations != [] then st else LocateWalk(ws, |ws|, st)
  }

  /** b differs from a only by more locations and another depth. */
  predicate LocatesOnly(a: JarState, b: JarState) {
    b.(locations := a.locations, depth := a.depth) == a &&
    |a.locations| <= |b.locations| && b.locations[..|a.locations|] == a.locations
  }

  lemma LocatesOnlyTransitive(a: JarState, b: JarState, c: JarState)
    requires LocatesOnly(a, b) && LocatesOnly(b, c)
    ensures LocatesOnly(a, c)
  {
    assert c.locations[..|a.locations|] == c.locations[..|b.locations|][..|a.locations|];
  }

  /** The loop of `find_locations` over a new section. */
  method LocateSection(text: string, spans: seq<Span>, st: JarState) returns (jar: JarState)
    requires SpansOk(text, spans)
    ensures jar == LocateWalk(Tokenize(text, spans), |spans|, st)
  {
    var section := new PathSection(text, spans);
    ghost var ws := section.section;
    jar := st;
    var i := 0;
    while i < |section.section|
      invariant section.section == ws && ws == Tokenize(text, spans)
      invariant 0 <= i <= |ws|
      invariant jar == LocateWalk(ws, i, st)
    {
      section.MoveTo(i);
      ghost var prev := jar;
      var word := section.section[i];
      if IsIn(word, AnyOf(LocationKeys)) {
        jar := LocationArm(section.section, i, jar);
      } else if Measure(section.section, i, "cm") {
        var num := JarWalk.Measured(section.section, i, "cm");
        if num >= 10.0 {
          jar := WithDepth(jar, num);
        }
      }
      assert jar == LocateStep(ws, i, prev);
      assert LocateWalk(ws, i + 1, st) == LocateStep(ws, i, prev);
      i := i + 1;
    }
  }

  // ---------------------------------------------------------------- the manager

  class JarManager {
    var jars: seq<JarState>
    var currJar: Option<nat>

    /** The current jar, when there is one, is one of the jars; every jar's sizes are measured. */
    predicate Valid()
      reads this
    {
      (currJar.Some? ==> currJar.value < |jars|) && AllWf(jars)
    }

    constructor ()
      ensures jars == [] && currJar == None && Valid()
    {
      jars, currJar := [], None;
    }

    /**
     * `cursory_diagnosis_examination(section)`: the walk over the section's
     * words builds one new jar, which is appended and becomes the current
     * jar. A failing walk (a KeyError) leaves the manager as it was.
     */
    method CursoryDiagnosisExamination(text: string, spans: seq<Span>) returns (r: Result<()>)
      requires Valid() && SpansOk(text, spans)
      modifies this
      ensures Valid()
      ensures var ex := Examined(Tokenize(text, spans));
        (r.Ok? <==> ex.Ok?) &&
        (r.Ok? ==> jars == old(jars) + [ex.value] && currJar == Some(|jars| - 1)) &&
        (r.Err? ==> r.error == ex.error && r.error.KeyError? && jars == old(jars) && currJar == old(currJar))
    {
      var jar := ExamineSection(text, spans);
      ExaminedKeeps(Tokenize(text, spans));
      if jar.Err? {
        return Err(jar.error);
      }
      jars := jars + [jar.value.State()];
      currJar := Some(|jars| - 1);
      return Ok(());
    }

    /** `get_current_jar()`: a ValueError before any jar has been examined. */
    method GetCurrentJar() returns (r: Result<JarState>)
      requires Valid()
      ensures r.Err? <==> currJar.None?
      ensures r.Err? ==> r.error == ValueError("No current jar")
      ensures r.Ok? ==> r.value == jars[currJar.value]
    {
      if currJar.Some? {
        return Ok(jars[currJar.value]);
      }
      return Err(ValueError("No current jar"));
    }

    /**
     * `find_locations(section)`: the current jar, if it has no location yet,
     * takes the locations and depths the section names.
     */
    method FindLocations(text: string, spans: seq<Span>) returns (r: Result<()>)
      requires Valid() && SpansOk(text, spans)
      modifies this
      ensures Valid() && currJar == old(currJar)
      ensures r.Err? <==> currJar.None?
      ensures r.Err? ==> jars == old(jars)
      ensures r.Ok? ==> jars == old(jars)[currJar.value := Located(Tokenize(text, spans), old(jars)[currJar.value])]
    {
      var cur := GetCurrentJar();
      if cur.Err? {
        return Err(cur.error);
      }
      var jar := cur.value;
      if jar.locations != [] {
        return Ok(());
      }
      jar := LocateSection(text, spans, jar);
      jars := jars[currJar.value := jar];
      return Ok(());
    }

    /**
     * `check_dysplasia(section)`: a jar's dysplasia counter is an object and
     * so always true, so the method returns as soon as it has the current jar.
     */
    method CheckDysplasia(text: string) returns (r: Result<()>)
      requires Valid()
      ensures r.Err? <==> currJar.None?
    {
      var cur := GetCurrentJar();
      if cur.Err? {
        return Err(cur.error);
      }
      return Ok(());
    }

    /** `postprocess(allow_maybe)`: every jar is placed in its location buckets. */
    method Postprocess(allowMaybe: bool)
      requires Valid()
      modifies this
      ensures Valid() && currJar == old(currJar) && |jars| == |old(jars)|
      ensures forall i :: 0 <= i < |jars| ==> jars[i] == Postprocessed(old(jars)[i], allowMaybe)
    {
      var k := 0;
      while k < |jars|
        invariant 0 <= k <= |jars| == |old(jars)| && currJar == old(currJar) && Valid()
        invariant forall i :: 0 <= i < k ==> jars[i] == Postprocessed(old(jars)[i], allowMaybe)
        invariant forall i :: k <= i < |jars| ==> jars[i] == old(jars)[i]
      {
        var s := PostprocessJar(jars[k], allowMaybe);
        jars := jars[k := s];
        k := k + 1;
      }
    }

    /** The five `get_adenoma_*count(method)` getters, one per bucket. */
    method GetAdenomaCount(m: AdenomaCountMethod, b: Bucket) returns (count: Count)
      ensures count == AdenomaTotal(jars, m, b)
    {
      count := Exact(0);
      var k := 0;
      while k < |jars|
        invariant 0 <= k <= |jars|
        invariant count == AdenomaTotal(jars[..k], m, b)
      {
        assert jars[..k + 1][..k] == jars[..k];
        var c := BucketCount(jars[k], b);
        if m == CountInJar {
          count := Plus(count, c);
        } else if m == OnePerJar {
          count := PlusInt(count, if Truthy(c) then 1 else 0);
        }
        k := k + 1;
      }
      assert jars[..k] == jars;
    }

    /** `get_histology(category, allow_maybe)`. */
    method GetHistology(h: Histology, allowMaybe: bool) returns (r: HistologyCounts)
      ensures r == HistologyTally(jars, h, allowMaybe)
    {
      r := HistologyCounts(0, 0, 0, 0, 0);
      var k := 0;
      while k < |jars|
        invariant 0 <= k <= |jars|
        invariant r == HistologyTally(jars[..k], h, allowMaybe)
      {
        assert jars[..k + 1][..k] == jars[..k];
        r := HistologyJar(r, jars[k], h, allowMaybe);
        k := k + 1;
      }
      assert jars[..k] == jars;
    }

    /** `get_any_dysplasia()`: 1 for a positive jar, else 0 for a negative one, else 99. */
    method GetAnyDysplasia() returns (r: int)
      ensures r == 1 <==> exists i :: 0 <= i < |jars| && PositiveDysplasia(jars[i])
      ensures r == 0 <==> (forall i :: 0 <= i < |jars| ==> !PositiveDysplasia(jars[i])) &&
                          exists i :: 0 <= i < |jars| && NegativeDysplasia(jars[i])
      ensures r == 1 || r == 0 || r == 99
    {
      var hasNegative := false;
      var k := 0;
      while k < |jars|
        invariant 0 <= k <= |jars|
        invariant forall i :: 0 <= i < k ==> !PositiveDysplasia(jars[i])
        invariant hasNegative <==> exists i :: 0 <= i < k && NegativeDysplasia(jars[i])
      {
        if jars[k].dysplasia.positive > 0 {
          return 1;
        } else if jars[k].dysplasia.negative > 0 {
          hasNegative := true;
        }
        k := k + 1;
      }
      if hasNegative {
        return 0;
      }
      return 99;
    }

    /** `has_dysplasia()`. */
    method HasDysplasia() returns (r: bool)
      ensures r <==> exists i :: 0 <= i < |jars| && PositiveDysplasia(jars[i])
    {
      var k := 0;
      while k < |jars|
        invariant 0 <= k <= |jars|
        invariant forall i :: 0 <= i < k ==> !PositiveDysplasia(jars[i])
      {
        if jars[k].dysplasia.positive > 0 {
          return true;
        }
        k := k + 1;
      }
      return false;
    }

    /** `get_sessile_serrated_count(jar_count)`: the jars with a sessile serrated adenoma. */
    method GetSessileSerratedCount(jarCount: bool) returns (r: Result<nat>)
      ensures !jarCount ==> r == Err(NotImplementedError("jar_count is False"))
      ensures jarCount ==> r == Ok(CountWhere(jars, SessileSerratedJar))
    {
      if !jarCount {
        return Err(NotImplementedError("jar_count is False"));
      }
      var count := 0;
      var k := 0;
      while k < |jars|
        invariant 0 <= k <= |jars|
        invariant count == CountWhere(jars[..k], SessileSerratedJar)
      {
        assert jars[..k + 1][..k] == jars[..k];
        if jars[k].ssaCount > 0 {
          count := count + 1;
        }
        k := k + 1;
      }
      assert jars[..k] == jars;
      return Ok(count);
    }

    /** `get_carcinoma_count(jar_count)`: the colon jars with a definite carcinoma, melanoma only counting in the rectum. */
    method GetCarcinomaCount(jarCount: bool) returns (r: Result<nat>)
      ensures !jarCount ==> r == Err(NotImplementedError("jar_count is False"))
      ensures jarCount ==> r == Ok(CountWhere(jars, CarcinomaJar))
    {
      if !jarCount {
        return Err(NotImplementedError("jar_count is False"));
      }
      var count := 0;
      var k := 0;
      while k < |jars|
        invariant 0 <= k <= |jars|
        invariant count == CountWhere(jars[..k], CarcinomaJar)
      {
        assert jars[..k + 1][..k] == jars[..k];
        if AllInColon(jars[k]) && jars[k].carcinomas > 0 && NotOnlyColonicMelanoma(jars[k]) {
          count := count + 1;
        }
        k := k + 1;
      }
      assert jars[..k] == jars;
      return Ok(count);
    }

    /** `get_carcinoma_maybe_count(jar_count, probable_only)`. */
    method GetCarcinomaMaybeCount(jarCount: bool, probableOnly: bool) returns (r: Result<nat>)
      ensures !jarCount ==> r == Err(NotImplementedError("jar_count is False"))
      ensures jarCount ==> r == MaybeTally(jars, probableOnly)
    {
      if !jarCount {
        return Err(NotImplementedError("jar_count is False"));
      }
      var count := 0;
      var k := 0;
      while k < |jars|
        invariant 0 <= k <= |jars|
        invariant MaybeTally(jars[..k], probableOnly) == Ok(count)
      {
        assert jars[..k + 1][..k] == jars[..k];
        var s := jars[k];
        if !AllInColon(s) || !NotOnlyColonicMelanoma(s) {
        } else if s.carcinomasMaybe != 0 {
          count := count + 1;
        } else if !probableOnly {
          assert MaybeTally(jars[..k + 1], probableOnly).Err?;
          MaybeTallyFails(jars, probableOnly, k + 1);
          return Err(AttributeError("carcinomas_possible"));
        }
        k := k + 1;
      }
      assert jars[..k] == jars;
      return Ok(count);
    }

    /**
     * `get_carcinoma_in_situ_count(jar_count)`: the loop reads
     * `carcinomas_in_situ`, which no Jar has, at the first colon jar.
     */
    method GetCarcinomaInSituCount(jarCount: bool) returns (r: Result<nat>)
      ensures !jarCount ==> r == Err(NotImplementedError("jar_count is False"))
      ensures jarCount && (exists i :: 0 <= i < |jars| && AllInColon(jars[i])) ==> r == Err(AttributeError("carcinomas_in_situ"))
      ensures jarCount && (forall i :: 0 <= i < |jars| ==> !AllInColon(jars[i])) ==> r == Ok(0)
    {
      if !jarCount {
        return Err(NotImplementedError("jar_count is False"));
      }
      var k := 0;
      while k < |jars|
        invariant 0 <= k <= |jars|
        invariant forall i :: 0 <= i < k ==> !AllInColon(jars[i])
      {
        if AllInColon(jars[k]) {
          return Err(AttributeError("carcinomas_in_situ"));
        }
        k := k + 1;
      }
      return Ok(0);
    }

    /**
     * `get_carcinoma_in_situ_maybe_count(jar_count, probable_only)`: the loop
     * reads `carcinomas_in_situ_maybe`, which no Jar has, at the first candidate jar.
     */
    method GetCarcinomaInSituMaybeCount(jarCount: bool, probableOnly: bool) returns (r: Result<nat>)
      ensures !jarCount ==> r == Err(NotImplementedError("jar_count is False"))
      ensures jarCount && (exists i :: 0 <= i < |jars| && MaybeCandidate(jars[i])) ==> r == Err(AttributeError("carcinomas_in_situ_maybe"))
      ensures jarCount && (forall i :: 0 <= i < |jars| ==> !MaybeCandidate(jars[i])) ==> r == Ok(0)
    {
      if !jarCount {
        return Err(NotImplementedError("jar_count is False"));
      }
      var k := 0;
      while k < |jars|
        invariant 0 <= k <= |jars|
        invariant forall i :: 0 <= i < k ==> !MaybeCandidate(jars[i])
      {
        if AllInColon(jars[k]) && NotOnlyColonicMelanoma(jars[k]) {
          return Err(AttributeError("carcinomas_in_situ_maybe"));
        }
        k := k + 1;
      }
      return Ok(0);
    }

    /** The `get_location(s)_with_*` generators, collected in order. */
    method GetLocationsWith(sel: Selection) returns (r: seq<Option<Segment>>)
      requires Valid()
      ensures r == LocationsWith(jars, sel)
    {
      r := [];
      var k := 0;
      while k < |jars|
        invariant 0 <= k <= |jars|
        invariant r == LocationsWith(jars[..k], sel)
      {
        assert jars[..k + 1][..k] == jars[..k];
        if Selects(sel, jars[k]) {
          r := r + LocationsOrNone(jars[k]);
        }
        k := k + 1;
      }
      assert jars[..k] == jars;
    }
  }

  /** Once the maybe tally fails on a prefix, it fails on the whole. */
  lemma {:induction false} MaybeTallyFails(jars: seq<JarState>, probableOnly: bool, k: nat)
    requires k <= |jars| && MaybeTally(jars[..k], probableOnly).Err?
    ensures MaybeTally(jars, probableOnly) == MaybeTally(jars[..k], probableOnly)
    decreases |jars| - k
  {
    if k < |jars| {
      assert jars[..k + 1][..k] == jars[..k];
      MaybeTallyFails(jars, probableOnly, k + 1);
    } else {
      assert jars[..k] == jars;
    }
  }
}
