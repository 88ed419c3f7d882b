/**
 * Jar: what the pathology report says about one specimen jar — its polyp
 * and adenoma counts, locations, histologies, sizes, dysplasia and
 * carcinoma mentions — and the location buckets a jar falls in.
 */
module Jars {
  import opened Wrappers
  import opened Enums
  import opened MaybeCounters
  import PolarityCounters
  import opened Utils
  import opened PolypSizes

  /** One carcinoma mention: the words naming it, how certain it is, and whether it is in situ. */
  datatype Carcinoma = Carcinoma(term: string, status: AssertionStatus, inSitu: bool)

  /** A snapshot of every field of a Jar. */
  datatype JarState = JarState(
    kinds: seq<string>,
    polypCount: Count,
    adenomaCount: Count,
    adenomaDistal: Count,
    adenomaProximal: Count,
    adenomaRectal: Count,
    adenomaUnknown: Count,
    locations: seq<Segment>,
    histologies: seq<Histology>,
    polypSize: seq<PolypSize>,
    dysplasia: PolarityCounters.Polarity,
    depth: Option<real>,
    ssaCount: int,
    carcinomas: int,
    carcinomaList: seq<Carcinoma>,
    carcinomasMaybe: int)

  /** A new jar: one polyp, no adenoma, nothing else recorded. */
  const NewJar: JarState := JarState(
    [], Exact(1), Exact(0), Exact(0), Exact(0), Exact(0), Exact(0),
    [], [], [], PolarityCounters.Zero, None, 0, 0, [], 0)

  /** Every recorded polyp size has a maximum dimension; `set_polyp_size` only ever records such sizes. */
  predicate Measured(sizes: seq<PolypSize>) {
    forall i :: 0 <= i < |sizes| ==> sizes[i].maxSize != []
  }

  predicate Wf(s: JarState) { Measured(s.polypSize) }

  // ---------------------------------------------------------------- mutators, as values

  /** After `set_depth(depth)`: the depth is kept and the segments at that depth are appended. */
  function WithDepth(s: JarState, depth: real): (r: JarState)
    ensures r.depth == Some(depth)
    ensures |r.locations| > |s.locations| && r.locations[..|s.locations|] == s.locations
    ensures r.locations[|s.locations|..] == BandsAt(DepthBands, depth)
    ensures r.(depth := s.depth, locations := s.locations) == s
    ensures Wf(s) ==> Wf(r)
  {
    DepthAlwaysLocated(depth);
    var r := s.(depth := Some(depth), locations := s.locations + BandsAt(DepthBands, depth));
    assert r.locations[|s.locations|..] == BandsAt(DepthBands, depth);
    r
  }

  /** The size `set_polyp_size(size, cm)` records. */
  function SizeOf(size: real, cm: bool): PolypSize { Set([if cm then size * 10.0 else size]) }

  /** After `set_polyp_size(size, cm)`: one size is appended, in millimetres. */
  function WithPolypSize(s: JarState, size: real, cm: bool): (r: JarState)
    ensures r.polypSize == s.polypSize + [SizeOf(size, cm)]
    ensures GetMaxDim(r.polypSize[|r.polypSize| - 1]) == Ok(if cm then size * 10.0 else size)
    ensures r.(polypSize := s.polypSize) == s
    ensures Wf(s) ==> Wf(r)
  {
    SetOneMaxDim(if cm then size * 10.0 else size);
    s.(polypSize := s.polypSize + [SizeOf(size, cm)])
  }

  /** After `add_locations(lst)`: the standardised terms are appended; an unknown term is a ValueError and changes nothing. */
  function WithLocations(s: JarState, lst: seq<string>): (r: Result<JarState>)
    ensures r.Ok? <==> Standardized(lst, false).Ok?
    ensures r.Ok? ==> r.value == s.(locations := s.locations + Standardized(lst, false).value)
    ensures r.Err? ==> r.error == Standardized(lst, false).error
  {
    match Standardized(lst, false)
      case Err(e) => Err(e)
      case Ok(locs) => Ok(s.(locations := s.locations + locs))
  }

  /** After `add_histology(h)`: the histology is appended; an unknown term is a ValueError. */
  function WithHistology(s: JarState, h: string): (r: Result<JarState>)
    ensures r.Ok? <==> HistologyOf(h).Ok?
    ensures r.Ok? ==> r.value == s.(histologies := s.histologies + [HistologyOf(h).value])
  {
    match HistologyOf(h)
      case Err(e) => Err(e)
      case Ok(k) => Ok(s.(histologies := s.histologies + [k]))
  }

  /** After `add_ssa()` or `add_ssp()`. */
  function WithSessileSerrated(s: JarState): (r: JarState)
    ensures r.ssaCount == s.ssaCount + 1 && r.(ssaCount := s.ssaCount) == s
  {
    s.(ssaCount := s.ssaCount + 1)
  }

  /** UNKNOWN and DEFINITE count as carcinomas. */
  predicate CountsAsCarcinoma(status: AssertionStatus) { status == UnknownStatus || status == Definite }

  /** PROBABLE, POSSIBLE and IMPROBABLE count as maybe-carcinomas. */
  predicate CountsAsMaybe(status: AssertionStatus) { status == Probable || status == Possible || status == Improbable }

  /** After `add_carcinoma(term, status, in_situ)`. */
  function WithCarcinoma(s: JarState, term: string, status: AssertionStatus, inSitu: bool): JarState
  {
    s.(carcinomas := s.carcinomas + (if CountsAsCarcinoma(status) then 1 else 0),
       carcinomasMaybe := s.carcinomasMaybe + (if CountsAsMaybe(status) then 1 else 0),
       carcinomaList := s.carcinomaList + [Carcinoma(term, status, inSitu)])
  }

  /** After `add_adenoma_count(n, greater_than, at_least)`, i.e. `adenoma_count.add(...)`. */
  function WithAdenomaCount(s: JarState, n: int, greaterThan: bool, atLeast: bool): (r: JarState)
    ensures r.adenomaCount == Added(s.adenomaCount, n, greaterThan, atLeast)
    ensures r.(adenomaCount := s.adenomaCount) == s
  {
    s.(adenomaCount := Added(s.adenomaCount, n, greaterThan, atLeast))
  }

  /** After `add_dysplasia(positive=., negative=.)`, i.e. `dysplasia.add(...)`. */
  function WithDysplasia(s: JarState, positive: int, negative: int): (r: JarState)
    ensures r.dysplasia == PolarityCounters.Added(s.dysplasia, positive, negative)
    ensures r.(dysplasia := s.dysplasia) == s
  {
    s.(dysplasia := PolarityCounters.Added(s.dysplasia, positive, negative))
  }

  /** After `kinds.append(kind)`. */
  function WithKind(s: JarState, kind: string): (r: JarState)
    ensures r.kinds == s.kinds + [kind] && r.(kinds := s.kinds) == s
  {
    s.(kinds := s.kinds + [kind])
  }

  /** After `polyp_count.set(n)`: an exact count. */
  function WithPolypCount(s: JarState, n: int): (r: JarState)
    ensures r.polypCount == Exact(n) && r.(polypCount := s.polypCount) == s
  {
    s.(polypCount := Exact(n))
  }

  /** After `polyp_count.greater_than = True`: the count is kept and becomes "more than". */
  function WithMorePolyps(s: JarState): (r: JarState)
    ensures r.polypCount.count == s.polypCount.count && r.polypCount.greaterThan
    ensures r.polypCount.atLeast == s.polypCount.atLeast && r.(polypCount := s.polypCount) == s
  {
    s.(polypCount := s.polypCount.(greaterThan := true))
  }

  function AllAdenomaCounts(s: JarState): seq<Count> {
    [s.adenomaCount, s.adenomaDistal, s.adenomaProximal, s.adenomaRectal, s.adenomaUnknown]
  }

  /** A new jar starts with one polyp, no adenoma anywhere, and empty lists. */
  lemma NewJarIsEmpty()
    ensures NewJar.polypCount == Exact(1) && Gt(NewJar.polypCount, 1, GreaterThanLimit) == -1
    ensures forall c :: c in AllAdenomaCounts(NewJar) ==> c == Exact(0) && !Truthy(c)
    ensures NewJar.locations == [] && NewJar.histologies == [] && NewJar.polypSize == [] && NewJar.carcinomaList == []
    ensures PolarityCounters.Unknown(NewJar.dysplasia) && NewJar.depth == None && Wf(NewJar)
  {
  }

  /**
   * `add_carcinoma(term, status)` as written: it takes no `in_situ`, so a
   * call passing one raises TypeError; without one it counts the mention
   * as WithCarcinoma does (this model then records it as not in situ).
   */
  function AddCarcinomaAsWritten(s: JarState, term: string, status: AssertionStatus, inSitu: Option<bool>): (r: Result<JarState>)
    ensures inSitu.Some? <==> r.Err?
    ensures r.Err? ==> r.error == TypeError("add_carcinoma() got an unexpected keyword argument 'in_situ'")
    ensures r.Ok? ==> r.value.carcinomas == WithCarcinoma(s, term, status, false).carcinomas
  {
    if inSitu.Some? then Err(TypeError("add_carcinoma() got an unexpected keyword argument 'in_situ'"))
    else Ok(WithCarcinoma(s, term, status, false))
  }

  /**
   * `add_carcinoma` bumps exactly one of the two carcinoma counters, or none
   * for a negated mention, and always records the mention.
   */
  lemma CarcinomaCounted(s: JarState, term: string, status: AssertionStatus, inSitu: bool)
    ensures var r := WithCarcinoma(s, term, status, inSitu);
      (status in {UnknownStatus, Definite} ==> r.carcinomas == s.carcinomas + 1 && r.carcinomasMaybe == s.carcinomasMaybe) &&
      (status in {Probable, Possible, Improbable} ==> r.carcinomas == s.carcinomas && r.carcinomasMaybe == s.carcinomasMaybe + 1) &&
      (status == Negated ==> r.carcinomas == s.carcinomas && r.carcinomasMaybe == s.carcinomasMaybe) &&
      r.carcinomaList == s.carcinomaList + [Carcinoma(term, status, inSitu)] &&
      r.(carcinomas := s.carcinomas, carcinomasMaybe := s.carcinomasMaybe, carcinomaList := s.carcinomaList) == s
  {
  }

  /** Every mention is either a carcinoma, a maybe, or negated: the three counters add up to the list. */
  lemma {:induction false} CarcinomaTally(s: JarState, ms: seq<Carcinoma>)
    ensures var r := AddAll(s, ms);
      r.carcinomas + r.carcinomasMaybe + NegatedIn(ms) == s.carcinomas + s.carcinomasMaybe + |ms| &&
      r.carcinomaList == s.carcinomaList + ms
  {
    if ms != [] {
      var front := ms[..|ms| - 1];
      CarcinomaTally(s, front);
    }
  }

  /** The state after recording each mention of ms in turn. */
  function AddAll(s: JarState, ms: seq<Carcinoma>): JarState
  {
    if ms == [] then s
    else
      var m := ms[|ms| - 1];
      WithCarcinoma(AddAll(s, ms[..|ms| - 1]), m.term, m.status, m.inSitu)
  }

  function NegatedIn(ms: seq<Carcinoma>): nat
  {
    if ms == [] then 0 else NegatedIn(ms[..|ms| - 1]) + (if ms[|ms| - 1].status == Negated then 1 else 0)
  }

  // ---------------------------------------------------------------- sizes

  /** The largest maximum dimension: what `sorted(polyp_size, reverse=True)[0].get_max_dim()` reads. */
  function TopDim(sizes: seq<PolypSize>): (r: real)
    requires sizes != [] && Measured(sizes)
    ensures forall i :: 0 <= i < |sizes| ==> sizes[i].maxSize[0] <= r
    ensures exists i :: 0 <= i < |sizes| && sizes[i].maxSize[0] == r
    decreases |sizes|
  {
    var last := sizes[|sizes| - 1].maxSize[0];
    if |sizes| == 1 then last
    else
      var front := sizes[..|sizes| - 1];
      assert Measured(front);
      var m := TopDim(front);
      if last > m then last else m
  }

  /** `has_min_size(min_size)`: some size reaches min_size. */
  predicate HasMinSize(s: JarState, minSize: real)
    requires Wf(s)
  {
    s.polypSize != [] && TopDim(s.polypSize) >= minSize
  }

  /** `has_max_size(max_size)`: the largest size stays below max_size. */
  predicate HasMaxSize(s: JarState, maxSize: real)
    requires Wf(s)
  {
    s.polypSize != [] && TopDim(s.polypSize) < maxSize
  }

  /** `has_unknown_size()`. */
  predicate HasUnknownSize(s: JarState) { s.polypSize == [] }

  /** `has_adenoma()`: there is certainly at least one adenoma. */
  predicate HasAdenoma(s: JarState) { Gt(s.adenomaCount, 0, GreaterThanLimit) == 1 }

  /** With a size recorded, the minimum- and maximum-size tests at one threshold are complements. */
  lemma MinMaxComplement(s: JarState, t: real)
    requires Wf(s) && s.polypSize != []
    ensures HasMinSize(s, t) <==> !HasMaxSize(s, t)
    ensures HasMinSize(s, t) <==> exists i :: 0 <= i < |s.polypSize| && s.polypSize[i].maxSize[0] >= t
  {
  }

  /** Without sizes, neither test holds and the size is unknown. */
  lemma NoSizeNoTest(s: JarState, t: real)
    requires Wf(s)
    ensures HasUnknownSize(s) <==> !HasMinSize(s, t) && !HasMaxSize(s, t)
  {
    if s.polypSize != [] {
      if !HasMinSize(s, t) {
        assert HasMaxSize(s, t);
      }
    }
  }

  /** has_adenoma: the count is positive, or is zero and "more than". */
  lemma HasAdenomaIff(s: JarState)
    ensures HasAdenoma(s) <==> s.adenomaCount.count > 0 || (s.adenomaCount.count == 0 && s.adenomaCount.greaterThan)
  {
  }

  // ---------------------------------------------------------------- locations

  /** The distinct locations, `set(jar.locations)`. */
  function Distinct(locs: seq<Segment>): set<Segment> { set x | x in locs }

  /** `filter_colon(locations)` over standard names, which standardise to themselves. */
  function ColonFilter(locs: seq<Segment>): (r: seq<Segment>)
    ensures forall x :: x in r <==> x in locs && x in ColonSegments
  {
    if locs == [] then []
    else ColonFilter(locs[..|locs| - 1]) + (if locs[|locs| - 1] in ColonSegments then [locs[|locs| - 1]] else [])
  }

  /** The depth, as `jar.depth` reads in a test: a recorded, non-zero depth. */
  predicate DepthIs(s: JarState, lo: real, hi: Option<real>, strictLo: bool, strictHi: bool)
  {
    s.depth.Some? && s.depth.value != 0.0 &&
    (if strictLo then lo < s.depth.value else lo <= s.depth.value) &&
    (hi.None? || (if strictHi then s.depth.value < hi.value else s.depth.value <= hi.value))
  }

  /** `is_colon`: as many distinct locations as distinct colon locations. */
  predicate IsColon(s: JarState) { |Distinct(s.locations)| == |Distinct(ColonFilter(s.locations))| }

  /** Every location is a colon location: `is_colon` without the counting (IsColonIff). */
  predicate AllInColon(s: JarState) { forall x :: x in s.locations ==> x in ColonSegments }

  /** `maybe_colon`: some location is in the colon. */
  predicate MaybeColon(s: JarState) { Distinct(ColonFilter(s.locations)) != {} }

  /** `is_distal`: all locations distal, or a depth strictly between 16 and 82 cm. */
  predicate IsDistal(s: JarState) {
    (Distinct(s.locations) != {} && Distinct(s.locations) <= DistalSegments) || DepthIs(s, 16.0, Some(82.0), true, true)
  }

  /** `maybe_distal`: some location is distal. */
  predicate MaybeDistal(s: JarState) { Distinct(s.locations) * DistalSegments != {} }

  /** `is_proximal`: all locations proximal, or a depth beyond 82 cm. */
  predicate IsProximal(s: JarState) {
    (Distinct(s.locations) != {} && Distinct(s.locations) <= ProximalSegments) || DepthIs(s, 82.0, None, true, true)
  }

  predicate MaybeProximal(s: JarState) { Distinct(s.locations) * ProximalSegments != {} }

  /** `is_rectal`: all locations rectal, or a depth from 4 to 16 cm. */
  predicate IsRectal(s: JarState) {
    (s.locations != [] && Distinct(s.locations) <= RectalSegments) || DepthIs(s, 4.0, Some(16.0), false, false)
  }

  predicate MaybeRectal(s: JarState) { Distinct(s.locations) * RectalSegments != {} }

  /** `is_colon` holds exactly when every location is a colon location. */
  lemma IsColonIff(s: JarState)
    ensures IsColon(s) <==> AllInColon(s)
  {
    var all, colon := Distinct(s.locations), Distinct(ColonFilter(s.locations));
    assert colon <= all;
    if forall x :: x in s.locations ==> x in ColonSegments {
      assert all == colon;
    } else {
      var x :| x in s.locations && x !in ColonSegments;
      assert colon <= all - {x};
      SubsetNoLarger(colon, all - {x});
    }
  }

  lemma {:induction false} SubsetNoLarger<T>(a: set<T>, b: set<T>)
    requires a <= b
    ensures |a| <= |b|
    decreases |b|
  {
    if a != {} {
      var x :| x in a;
      SubsetNoLarger(a - {x}, b - {x});
    }
  }

  /** A jar with no depth: each "is" bucket implies the matching "maybe" bucket. */
  lemma IsImpliesMaybe(s: JarState)
    requires s.depth.None?
    ensures IsDistal(s) ==> MaybeDistal(s)
    ensures IsProximal(s) ==> MaybeProximal(s)
    ensures IsRectal(s) ==> MaybeRectal(s)
    ensures IsColon(s) && s.locations != [] ==> MaybeColon(s)
  {
    if s.locations != [] {
      var x := s.locations[0];
      assert x in Distinct(s.locations);
      IsColonIff(s);
      assert IsColon(s) ==> x in ColonFilter(s.locations);
    }
  }

  /** The buckets are not exclusive: a jar located only in the rectum is both distal and rectal. */
  lemma RectumIsDistalAndRectal(s: JarState)
    requires s.locations != [] && forall i :: 0 <= i < |s.locations| ==> s.locations[i] == Rectum
    ensures IsDistal(s) && IsRectal(s)
    ensures s.depth.None? ==> !IsProximal(s)
    ensures MaybeDistal(s) && MaybeRectal(s) && !MaybeProximal(s) && IsColon(s)
  {
    assert Distinct(s.locations) == {Rectum};
    IsColonIff(s);
  }

  /** By depth alone the buckets are exclusive, and 82 cm falls in none of them. */
  lemma DepthBucketsExclusive(s: JarState)
    requires s.locations == []
    ensures !(IsDistal(s) && IsProximal(s)) && !(IsDistal(s) && IsRectal(s)) && !(IsProximal(s) && IsRectal(s))
    ensures s.depth == Some(82.0) ==> !IsDistal(s) && !IsProximal(s) && !IsRectal(s)
  {
  }

  /** `locations_or_none()`: the colon locations, or a single None when there are no locations. */
  function LocationsOrNone(s: JarState): (r: seq<Option<Segment>>)
    ensures s.locations == [] ==> r == [None]
    ensures s.locations != [] ==> |r| == |ColonFilter(s.locations)|
    ensures s.locations != [] ==> forall i :: 0 <= i < |r| ==> r[i] == Some(ColonFilter(s.locations)[i])
  {
    if s.locations == [] then [None]
    else
      var f := ColonFilter(s.locations);
      seq(|f|, i requires 0 <= i < |f| => Some(f[i]))
  }

  // ---------------------------------------------------------------- the object

  /** A Jar: its fields change in place as the rule walk reads a report. */
  class Jar {
    var kinds: seq<string>
    var polypCount: Count
    var adenomaCount: Count
    var adenomaDistal: Count
    var adenomaProximal: Count
    var adenomaRectal: Count
    var adenomaUnknown: Count
    var locations: seq<Segment>
    var histologies: seq<Histology>
    var polypSize: seq<PolypSize>
    var dysplasia: PolarityCounters.Polarity
    var depth: Option<real>
    var ssaCount: int
    var carcinomas: int
    var carcinomaList: seq<Carcinoma>
    var carcinomasMaybe: int

    function State(): JarState
      reads this
    {
      JarState(kinds, polypCount, adenomaCount, adenomaDistal, adenomaProximal, adenomaRectal, adenomaUnknown,
               locations, histologies, polypSize, dysplasia, depth, ssaCount, carcinomas, carcinomaList, carcinomasMaybe)
    }

    constructor ()
      ensures State() == NewJar
    {
      kinds, polypCount := [], Exact(1);
      adenomaCount, adenomaDistal, adenomaProximal, adenomaRectal, adenomaUnknown :=
        Exact(0), Exact(0), Exact(0), Exact(0), Exact(0);
      locations, histologies, polypSize := [], [], [];
      dysplasia, depth := PolarityCounters.Zero, None;
      ssaCount, carcinomas, carcinomaList, carcinomasMaybe := 0, 0, [], 0;
    }

    method SetDepth(d: real)
      modifies this
      ensures State() == WithDepth(old(State()), d)
    {
      depth := Some(d);
      var locs := DepthToLocation(d);
      locations := locations + locs;
    }

    method SetPolypSize(size: real, cm: bool)
      modifies this
      ensures State() == WithPolypSize(old(State()), size, cm)
    {
      var mm := size;
      if cm {
        mm := mm * 10.0;
      }
      polypSize := polypSize + [Set([mm])];
    }

    method AddLocations(lst: seq<string>) returns (r: Result<()>)
      modifies this
      ensures r.Ok? <==> WithLocations(old(State()), lst).Ok?
      ensures r.Ok? ==> State() == WithLocations(old(State()), lst).value
      ensures r.Err? ==> State() == old(State()) && r.error == WithLocations(old(State()), lst).error
    {
      var locs := StandardizeLocations(lst, false);
      if locs.Err? {
        return Err(locs.error);
      }
      locations := locations + locs.value;
      r := Ok(());
    }

    method AddLocation(location: string) returns (r: Result<()>)
      modifies this
      ensures r.Ok? <==> WithLocations(old(State()), [location]).Ok?
      ensures r.Ok? ==> State() == WithLocations(old(State()), [location]).value
      ensures r.Err? ==> State() == old(State())
    {
      r := AddLocations([location]);
    }

    method AddHistology(h: string) returns (r: Result<()>)
      modifies this
      ensures r.Ok? <==> WithHistology(old(State()), h).Ok?
      ensures r.Ok? ==> State() == WithHistology(old(State()), h).value
      ensures r.Err? ==> State() == old(State())
    {
      var k := HistologyOf(h);
      if k.Err? {
        return Err(k.error);
      }
      histologies := histologies + [k.value];
      r := Ok(());
    }

    method AddSsa()
      modifies this
      ensures State() == WithSessileSerrated(old(State()))
    {
      ssaCount := ssaCount + 1;
    }

    method AddSsp()
      modifies this
      ensures State() == WithSessileSerrated(old(State()))
    {
      ssaCount := ssaCount + 1;
    }

    method AddCarcinoma(term: string, status: AssertionStatus, inSitu: bool)
      modifies this
      ensures State() == WithCarcinoma(old(State()), term, status, inSitu)
    {
      if status == UnknownStatus || status == Definite {
        carcinomas := carcinomas + 1;
      } else if status == Probable || status == Possible || status == Improbable {
        carcinomasMaybe := carcinomasMaybe + 1;
      }
      carcinomaList := carcinomaList + [Carcinoma(term, status, inSitu)];
    }

    method AddAdenomaCount(n: int, greaterThan: bool, atLeast: bool)
      modifies this
      ensures State() == WithAdenomaCount(old(State()), n, greaterThan, atLeast)
    {
      adenomaCount := Added(adenomaCount, n, greaterThan, atLeast);
    }

    method AddDysplasia(positive: int, negative: int)
      modifies this
      ensures State() == WithDysplasia(old(State()), positive, negative)
    {
      dysplasia := PolarityCounters.Added(dysplasia, positive, negative);
    }

    method AddKind(kind: string)
      modifies this
      ensures State() == WithKind(old(State()), kind)
    {
      kinds := kinds + [kind];
    }

    method SetPolypCount(n: int)
      modifies this
      ensures State() == WithPolypCount(old(State()), n)
    {
      polypCount := Exact(n);
    }

    method MarkMorePolyps()
      modifies this
      ensures State() == WithMorePolyps(old(State()))
    {
      polypCount := polypCount.(greaterThan := true);
    }
  }
}
