/**
 * The colonoscopy finding builder: a finite-state machine that reads one
 * finding segment ("key: text") and fills in a Finding through a fixed
 * table of extraction steps, and the builder object that collects, merges
 * and splits the findings it built.
 *
 * The size and depth regular expressions are parameters: each is a function
 * from the text to its matches in order, with the groups the code reads.
 */
module FindingBuilders {
  import opened Wrappers
  import opened Text
  import opened Utils
  import opened Patterns
  import opened Findings

  // ---------------------------------------------------------------- matches

  /**
   * A match of a size pattern: its span, the texts of the groups n1 and n2
   * ('' when a group did not take part) and whether the unit group `m` has
   * a 'c' before its last letter (centimetres).
   */
  datatype SizeHit = SizeHit(start: nat, end: nat, n1: string, n2: string, centi: bool)

  /** A match of a depth pattern: its span and the text of its number group. */
  datatype DepthHit = DepthHit(start: nat, end: nat, number: string)

  /** IN_SIZE_PATTERN, SIZE_PATTERN, AT_DEPTH_PATTERN and CM_DEPTH_PATTERN, each as its `finditer`. */
  datatype Matchers = Matchers(
    inSize: string -> seq<SizeHit>,
    size: string -> seq<SizeHit>,
    atDepth: string -> seq<DepthHit>,
    cmDepth: string -> seq<DepthHit>)

  /** The text between the given spans (`value[end:m.start()]` pieces and the tail), joined by single spaces. */
  function Pieces(text: string, spans: seq<(nat, nat)>, from: nat): (r: seq<string>)
    ensures |r| == |spans| + 1
  {
    if spans == [] then [Slice(text, from, |text|)]
    else [Slice(text, from, spans[0].0)] + Pieces(text, spans[1..], spans[0].1)
  }

  function CutOut(text: string, spans: seq<(nat, nat)>): string
  {
    Join(Pieces(text, spans, 0), " ")
  }

  /** Without matches the text is kept as it is. */
  lemma CutOutNothing(text: string)
    ensures CutOut(text, []) == text
  {
    assert Slice(text, 0, |text|) == text[0..|text|];
  }

  function SizeSpans(hits: seq<SizeHit>): (r: seq<(nat, nat)>)
    ensures |r| == |hits|
  {
    if hits == [] then [] else [(hits[0].start, hits[0].end)] + SizeSpans(hits[1..])
  }

  // ---------------------------------------------------------------- sizes

  /** `float(s)` for the number group texts. */
  function Float(s: string): (r: Result<real>)
    ensures r.Ok? <==> DecimalValue(s).Some?
  {
    match DecimalValue(s)
      case Some(v) => Ok(v)
      case None => Err(ValueError("could not convert string to float: " + s))
  }

  /** The inner `get_size`: 0 for a missing group, and a '<' or '>' prefix moves the value by 0.1. */
  function GroupSize(s: string): (r: Result<real>)
    ensures s == [] ==> r == Ok(0.0)
    ensures s != [] && s[0] == '<' ==> r == (if Float(s[1..]).Ok? then Ok(Float(s[1..]).value - 0.1) else Float(s[1..]))
    ensures s != [] && s[0] == '>' ==> r == (if Float(s[1..]).Ok? then Ok(Float(s[1..]).value + 0.1) else Float(s[1..]))
    ensures s != [] && s[0] != '<' && s[0] != '>' ==> r == Float(s)
  {
    if s == [] then Ok(0.0)
    else if s[0] == '<' then
      match Float(s[1..])
        case Ok(v) => Ok(v - 0.1)
        case Err(e) => Err(e)
    else if s[0] == '>' then
      match Float(s[1..])
        case Ok(v) => Ok(v + 0.1)
        case Err(e) => Err(e)
    else Float(s)
  }

  /** A group size kept by `_extract_size`: positive, in mm, at most 100. */
  function Kept(size: real, centi: bool): (r: seq<real>)
    ensures |r| <= 1
    ensures forall k :: 0 <= k < |r| ==> 0.0 < r[k] <= 100.0
    ensures r != [] <==> size > 0.0 && (if centi then size * 10.0 else size) <= 100.0
  {
    if size <= 0.0 then []
    else
      var mm := if centi then size * 10.0 else size;
      if mm > 100.0 then [] else [mm]
  }

  /** The sizes of one match: n1, then n2. */
  function HitSizes(h: SizeHit): (r: Result<seq<real>>)
    ensures r.Ok? ==> forall k :: 0 <= k < |r.value| ==> 0.0 < r.value[k] <= 100.0
  {
    match GroupSize(h.n1)
      case Err(e) => Err(e)
      case Ok(a) =>
        match GroupSize(h.n2)
          case Err(e) => Err(e)
          case Ok(b) => Ok(Kept(a, h.centi) + Kept(b, h.centi))
  }

  /** The sizes of all matches, in order; the first unreadable number raises. */
  function AllHitSizes(hits: seq<SizeHit>): (r: Result<seq<real>>)
    ensures r.Ok? ==> forall k :: 0 <= k < |r.value| ==> 0.0 < r.value[k] <= 100.0
  {
    if hits == [] then Ok([])
    else
      match HitSizes(hits[0])
        case Err(e) => Err(e)
        case Ok(s) =>
          match AllHitSizes(hits[1..])
            case Err(e) => Err(e)
            case Ok(t) => Ok(s + t)
  }

  /**
   * `_extract_size(finding, pat, value)`: the sizes replace the finding's
   * when there are any; every match is cut out of the text.
   */
  function ExtractSize(hits: seq<SizeHit>, f: Finding, text: string): (r: Result<(bool, Finding, string)>)
  {
    match AllHitSizes(hits)
      case Err(e) => Err(e)
      case Ok(sizes) =>
        Ok((sizes != [], if sizes != [] then f.(sizes := sizes) else f, CutOut(text, SizeSpans(hits))))
  }

  // ---------------------------------------------------------------- depths

  /** A depth match followed within 15 characters by 'size' is skipped. */
  predicate SizeFollows(text: string, h: DepthHit) { Contains(Slice(text, h.end, h.end + 15), "size") }

  function DepthKept(text: string, hits: seq<DepthHit>): (r: seq<DepthHit>)
    ensures |r| <= |hits|
  {
    if hits == [] then []
    else KeptOf(text, hits[0]) + DepthKept(text, hits[1..])
  }

  /** The match itself, unless 'size' follows it. */
  function KeptOf(text: string, h: DepthHit): (r: seq<DepthHit>)
  {
    if SizeFollows(text, h) then [] else [h]
  }

  /** The kept matches are matches not followed by 'size'. */
  lemma {:induction false} DepthKeptMembers(text: string, hits: seq<DepthHit>)
    ensures forall k :: 0 <= k < |DepthKept(text, hits)| ==> DepthKept(text, hits)[k] in hits && !SizeFollows(text, DepthKept(text, hits)[k])
    decreases |hits|
  {
    if hits != [] {
      DepthKeptMembers(text, hits[1..]);
    }
  }

  function DepthSpans(hits: seq<DepthHit>): (r: seq<(nat, nat)>)
    ensures |r| == |hits|
  {
    if hits == [] then [] else [(hits[0].start, hits[0].end)] + DepthSpans(hits[1..])
  }

  /** `depth_to_location(float(m.group(1)))` of each kept match, concatenated. */
  function DepthLocations(hits: seq<DepthHit>): (r: Result<seq<Segment>>)
  {
    if hits == [] then Ok([])
    else
      match Float(hits[0].number)
        case Err(e) => Err(e)
        case Ok(d) =>
          match DepthLocations(hits[1..])
            case Err(e) => Err(e)
            case Ok(rest) => Ok(BandsAt(DepthBands, d) + rest)
  }

  /** `_extract_depth(finding, pat, value)`: the locations of the kept matches replace the finding's when there are any. */
  function ExtractDepth(hits: seq<DepthHit>, f: Finding, text: string): (r: Result<(bool, Finding, string)>)
  {
    var kept := DepthKept(text, hits);
    match DepthLocations(kept)
      case Err(e) => Err(e)
      case Ok(locs) =>
        Ok((locs != [], if locs != [] then f.(locations := locs) else f, CutOut(text, DepthSpans(kept))))
  }

  /** Every readable depth lies in some band, so the depth step finds a location exactly when it keeps a match. */
  lemma {:induction false} DepthLocationsFound(hits: seq<DepthHit>)
    requires DepthLocations(hits).Ok?
    ensures DepthLocations(hits).value != [] <==> hits != []
    decreases |hits|
  {
    if hits != [] {
      DepthAlwaysLocated(Float(hits[0].number).value);
      DepthLocationsFound(hits[1..]);
    }
  }

  // ---------------------------------------------------------------- the other steps

  /** `split_key_text(text)`: the lower-cased text split at the first splitter of '-', '—', ':' whose key is at most 40 long. */
  function SplitKeyText(text: string): (r: (Option<string>, string))
    ensures r.0.None? ==> r.1 == Lower(text)
    ensures r.0.Some? ==>
      (|r.0.value| <= 40 && exists c :: c in "-—:" && r.0.value + [c] + r.1 == Lower(text) && !Contains(r.0.value, [c]))
  {
    SplitAt(Lower(text), "-—:")
  }

  function SplitAt(t: string, splitters: string): (r: (Option<string>, string))
    ensures r.0.None? ==> r.1 == t
    ensures r.0.Some? ==>
      (|r.0.value| <= 40 && exists c :: c in splitters && r.0.value + [c] + r.1 == t && !Contains(r.0.value, [c]))
  {
    if splitters == [] then (None, t)
    else
      match Find(t, [splitters[0]])
        case Some(k) =>
          if k <= 40 then
            assert t[..k] + [splitters[0]] + t[k + 1..] == t;
            NotFoundBefore(t, [splitters[0]], k);
            (Some(t[..k]), t[k + 1..])
          else SplitAt(t, splitters[1..])
        case None => SplitAt(t, splitters[1..])
  }

  /** The part of a text before the first occurrence of p does not contain p. */
  lemma {:induction false} NotFoundBefore(t: string, p: string, k: nat)
    requires k <= |t| && forall j :: 0 <= j < k ==> !StartsWith(t[j..], p)
    requires |p| == 1
    ensures !Contains(t[..k], p)
    decreases k
  {
    if k > 0 {
      assert !StartsWith(t[..k], p) by { assert !StartsWith(t[0..], p) && t[0..] == t; }
      assert t[..k][1..] == t[1..][..k - 1];
      forall j | 0 <= j < k - 1
        ensures !StartsWith(t[1..][j..], p)
      {
        assert t[1..][j..] == t[j + 1..];
      }
      NotFoundBefore(t[1..], p, k - 1);
    }
  }

  /** `exclude`: the words that mark a segment as no finding, searched case-insensitively in the key and the text. */
  predicate HasExclusion(s: string)
  {
    var l := Lower(s);
    Contains(l, "diverticulosis") || Contains(l, "normal") || Contains(l, "wnl") || Contains(l, "not evaluated")
  }

  predicate Excluded(key: Option<string>, text: string) { (key.Some? && HasExclusion(key.value)) || HasExclusion(text) }

  /** `was_removed`. */
  predicate Removed(text: string) { Contains(text, "remove") || Contains(text, "retriev") }

  /** The largest value of a non-empty finite set (`max(...)` does not depend on the list's order). */
  ghost function Largest(s: set<nat>): (r: nat)
    requires s != {}
    ensures r in s && forall x :: x in s ==> x <= r
    decreases |s|
  {
    var x :| x in s;
    var rest := s - {x};
    assert forall y :: y in s ==> y == x || y in rest;
    if rest == {} then x
    else
      var m := Largest(rest);
      if x >= m then x else m
  }

  /** The table `get_count` adds to the numbers: [0, 2] for 'polyps', [0, 1] for 'polyp', None without either. */
  function CountFloor(text: string): (r: Option<nat>)
    ensures r.Some? <==> Contains(text, "polyp") || Contains(text, "polyps")
  {
    if Contains(text, "polyps") then Some(2)
    else if Contains(text, "polyp") then Some(1)
    else None
  }

  /** The numbers followed within three words by 'polyp' or 'polyps'. */
  function PolypNumbers(text: string): set<string>
  {
    QualifyingNumbers(SplitNonWord(text), NumberValues, ["polyp", "polyps"], 3)
  }

  /** `get_count`: the largest qualifying number, at least the table's value, when a polyp is mentioned. */
  ghost function Count(text: string): (r: Option<nat>)
    ensures r.Some? <==> CountFloor(text).Some?
    ensures r.Some? ==> r.value >= CountFloor(text).value && r.value > 0
    ensures r.Some? ==> forall t :: t in PolypNumbers(text) ==> NumberValues[t] <= r.value
  {
    match CountFloor(text)
      case None => None
      case Some(k) =>
        var vs := Image(PolypNumbers(text), NumberValues) + {0, k};
        var m := Largest(vs);
        assert forall t :: t in PolypNumbers(text) ==> NumberValues[t] in vs;
        Some(m)
  }

  // ---------------------------------------------------------------- the state machine

  datatype State =
    | Start | NoneState | Polyp | SizeState | NoSize | SizeNoDepth | NoSizeDepth | NoSizeNoDepth
    | Done | LocationState | NoSizes | RemovedState | CountState

  datatype Action = Exclude | ExtractSize1 | ExtractSize2 | ExtractDepth1 | ExtractDepth2 | ExtractLocation | WasRemoved | GetCount

  /** An entry of TRANSITIONS: accept, or a step with its next state on true and on false. */
  datatype Entry = Accept | Step(action: Action, ifTrue: State, ifFalse: State)

  /** How far a state is from DONE. */
  function Rank(s: State): nat
  {
    match s
      case Start => 8
      case Polyp => 7
      case NoSize => 6
      case SizeState => 5
      case NoSizeNoDepth => 5
      case SizeNoDepth => 4
      case NoSizes => 4
      case NoSizeDepth => 3
      case LocationState => 3
      case RemovedState => 2
      case CountState => 1
      case Done => 0
      case NoneState => 0
  }

  /** TRANSITIONS (NONE has no entry). Every step leads to a state closer to DONE, so the table has no cycle. */
  function Table(s: State): (r: Option<Entry>)
    ensures r.Some? && r.value.Step? ==> Rank(r.value.ifTrue) < Rank(s) && Rank(r.value.ifFalse) < Rank(s)
    ensures r == Some(Accept) <==> s == Done
    ensures r.None? <==> s == NoneState
  {
    match s
      case Start => Some(Step(Exclude, Polyp, Done))
      case Polyp => Some(Step(ExtractSize1, SizeState, NoSize))
      case SizeState => Some(Step(ExtractDepth1, RemovedState, SizeNoDepth))
      case SizeNoDepth => Some(Step(ExtractDepth2, RemovedState, LocationState))
      case NoSize => Some(Step(ExtractDepth1, NoSizeDepth, NoSizeNoDepth))
      case NoSizeDepth => Some(Step(ExtractSize2, RemovedState, RemovedState))
      case NoSizeNoDepth => Some(Step(ExtractSize2, SizeNoDepth, NoSizes))
      case NoSizes => Some(Step(ExtractDepth2, RemovedState, LocationState))
      case LocationState => Some(Step(ExtractLocation, RemovedState, RemovedState))
      case RemovedState => Some(Step(WasRemoved, CountState, CountState))
      case CountState => Some(Step(GetCount, Done, Done))
      case Done => Some(Accept)
      case NoneState => None
  }

  /**
   * One step: its indicator, the updated finding and the text for the next
   * step. `extract_location` unpacks the three-element entries of
   * LOCATION_REGEX into two names, so it always raises ValueError.
   */
  ghost function Apply(m: Matchers, a: Action, f: Finding, text: string, key: Option<string>): (r: Result<(bool, Finding, string)>)
  {
    match a
      case Exclude => Ok((!Excluded(key, text), f, text))
      case ExtractSize1 => ExtractSize(m.inSize(text), f, text)
      case ExtractSize2 => ExtractSize(m.size(text), f, text)
      case ExtractDepth1 => ExtractDepth(m.atDepth(text), f, text)
      case ExtractDepth2 => ExtractDepth(m.cmDepth(text), f, text)
      case ExtractLocation => Err(ValueError("too many values to unpack (expected 2)"))
      case WasRemoved => Ok((Removed(text), f.(removal := Removed(text)), text))
      case GetCount =>
        match Count(text)
          case None => Ok((false, f, text))
          case Some(c) => Ok((c > 0, f.(count := c), text))
  }

  /** The loop of `fsm` from state s. */
  ghost function Run(m: Matchers, s: State, f: Finding, text: string, key: Option<string>): (r: Result<Finding>)
    decreases Rank(s)
  {
    match Table(s)
      case None => Err(KeyError("NONE"))
      case Some(Accept) => Ok(f)
      case Some(Step(a, t, e)) =>
        match Apply(m, a, f, text, key)
          case Err(err) => Err(err)
          case Ok((b, g, rest)) => Run(m, if b then t else e, g, rest, key)
  }

  /** `fsm(text)`: the finding read from one segment. */
  ghost function Built(m: Matchers, text: string): Result<Finding>
  {
    var (key, rest) := SplitKeyText(text);
    Run(m, Start, Blank, rest, key)
  }

  /** A segment with an exclusion word goes from START to DONE and gives the empty finding. */
  lemma ExcludedIsBlank(m: Matchers, text: string)
    requires Excluded(SplitKeyText(text).0, SplitKeyText(text).1)
    ensures Built(m, text) == Ok(Blank) && Built(m, text).value.count == 0
  {
  }

  /** States from which DONE cannot be reached without a step that sets locations. */
  predicate BeforeDepth(s: State)
  {
    s in {Polyp, SizeState, NoSize, SizeNoDepth, NoSizeNoDepth, NoSizes, LocationState}
  }

  lemma ExtractDepthFound(hits: seq<DepthHit>, f: Finding, text: string)
    requires ExtractDepth(hits, f, text).Ok?
    ensures ExtractDepth(hits, f, text).value.0 ==> ExtractDepth(hits, f, text).value.1.locations != []
    ensures ExtractDepth(hits, f, text).value.1.locations == [] ==> f.locations == []
  {
  }

  /** Once a finding has locations, no later step removes them. */
  lemma {:induction false} RunKeepsLocations(m: Matchers, s: State, f: Finding, text: string, key: Option<string>)
    requires !BeforeDepth(s) && s != Start && f.locations != []
    requires Run(m, s, f, text, key).Ok?
    ensures Run(m, s, f, text, key).value.locations != []
    decreases Rank(s)
  {
    match Table(s)
      case Some(Accept) =>
      case Some(Step(a, t, e)) =>
        var res := Apply(m, a, f, text, key);
        var (b, g, rest) := res.value;
        if a == ExtractSize2 {
          assert g.locations == f.locations;
        }
        RunKeepsLocations(m, if b then t else e, g, rest, key);
  }

  /** Before a depth is found, DONE is reached only through a step that found one. */
  lemma {:induction false} RunFindsLocations(m: Matchers, s: State, f: Finding, text: string, key: Option<string>)
    requires BeforeDepth(s)
    requires Run(m, s, f, text, key).Ok?
    ensures Run(m, s, f, text, key).value.locations != []
    decreases Rank(s)
  {
    match Table(s)
      case Some(Step(a, t, e)) =>
        var res := Apply(m, a, f, text, key);
        var (b, g, rest) := res.value;
        var next := if b then t else e;
        if a == ExtractDepth1 || a == ExtractDepth2 {
          ExtractDepthFound(if a == ExtractDepth1 then m.atDepth(text) else m.cmDepth(text), f, text);
        }
        if BeforeDepth(next) {
          RunFindsLocations(m, next, g, rest, key);
        } else {
          assert g.locations != [];
          RunKeepsLocations(m, next, g, rest, key);
        }
  }

  /**
   * Because `extract_location` always raises, every finding the machine
   * returns for a segment without exclusion words has a location, and it
   * came from a depth.
   */
  lemma FsmFindingHasLocation(m: Matchers, text: string)
    requires !Excluded(SplitKeyText(text).0, SplitKeyText(text).1)
    requires Built(m, text).Ok?
    ensures Built(m, text).value.locations != []
  {
    var (key, rest) := SplitKeyText(text);
    RunFindsLocations(m, Polyp, Blank, rest, key);
  }

  /** A segment that is not excluded and in which no pattern matches reaches LOCATION and raises ValueError. */
  lemma FsmWithoutMatchesRaises(m: Matchers, text: string)
    requires !Excluded(SplitKeyText(text).0, SplitKeyText(text).1)
    requires forall t :: m.inSize(t) == [] && m.size(t) == [] && m.atDepth(t) == [] && m.cmDepth(t) == []
    ensures Built(m, text).Err? && Built(m, text).error.ValueError?
  {
    var (key, rest) := SplitKeyText(text);
    assert Apply(m, Exclude, Blank, rest, key) == Ok((true, Blank, rest));
    RunStep(m, Start, Blank, rest, key);
    NoMatchesFromPolyp(m, rest, key);
  }

  /** From the polyp state, a text without size or depth matches reaches the location step. */
  lemma NoMatchesFromPolyp(m: Matchers, rest: string, key: Option<string>)
    requires m.inSize(rest) == [] && m.size(rest) == [] && m.atDepth(rest) == [] && m.cmDepth(rest) == []
    ensures Run(m, Polyp, Blank, rest, key).Err? && Run(m, Polyp, Blank, rest, key).error.ValueError?
  {
    NoMatchRun(m, Polyp, Blank, rest, key);
    NoMatchRun(m, NoSize, Blank, rest, key);
    NoMatchRun(m, NoSizeNoDepth, Blank, rest, key);
    NoMatchRun(m, NoSizes, Blank, rest, key);
    LocationRaises(m, Blank, rest, key);
  }

  /** A size or depth state whose matchers find nothing moves on to its false branch with the same finding and text. */
  lemma NoMatchRun(m: Matchers, s: State, f: Finding, rest: string, key: Option<string>)
    requires s in {Polyp, NoSize, NoSizeNoDepth, NoSizes}
    requires m.inSize(rest) == [] && m.size(rest) == [] && m.atDepth(rest) == [] && m.cmDepth(rest) == []
    ensures Run(m, s, f, rest, key) == Run(m, Table(s).value.ifFalse, f, rest, key)
  {
    NoMatchStep(m, Table(s).value.action, f, rest, key);
    RunStep(m, s, f, rest, key);
  }

  /** The location state always ends the machine with ValueError. */
  lemma LocationRaises(m: Matchers, f: Finding, text: string, key: Option<string>)
    ensures Run(m, LocationState, f, text, key).Err? && Run(m, LocationState, f, text, key).error.ValueError?
  {
  }

  /** One unfolding of the machine's loop at a state with a step that succeeds. */
  lemma RunStep(m: Matchers, s: State, f: Finding, text: string, key: Option<string>)
    requires Table(s).Some? && Table(s).value.Step?
    requires Apply(m, Table(s).value.action, f, text, key).Ok?
    ensures var (b, g, rest) := Apply(m, Table(s).value.action, f, text, key).value;
      Run(m, s, f, text, key) == Run(m, if b then Table(s).value.ifTrue else Table(s).value.ifFalse, g, rest, key)
  {
  }

  /** A size or depth step without matches finds nothing and keeps the finding and the text. */
  lemma NoMatchStep(m: Matchers, a: Action, f: Finding, text: string, key: Option<string>)
    requires a in {ExtractSize1, ExtractSize2, ExtractDepth1, ExtractDepth2}
    requires m.inSize(text) == [] && m.size(text) == [] && m.atDepth(text) == [] && m.cmDepth(text) == []
    ensures Apply(m, a, f, text, key) == Ok((false, f, text))
  {
    CutOutNothing(text);
  }

  /** The sizes of a finding are positive, in mm, and at most 100; its count is never negative. */
  lemma {:induction false} RunBounds(m: Matchers, s: State, f: Finding, text: string, key: Option<string>)
    requires f.count >= 0 && forall k :: 0 <= k < |f.sizes| ==> 0.0 < f.sizes[k] <= 100.0
    requires Run(m, s, f, text, key).Ok?
    ensures Run(m, s, f, text, key).value.count >= 0
    ensures forall k :: 0 <= k < |Run(m, s, f, text, key).value.sizes| ==> 0.0 < Run(m, s, f, text, key).value.sizes[k] <= 100.0
    decreases Rank(s)
  {
    match Table(s)
      case Some(Accept) =>
      case Some(Step(a, t, e)) =>
        ApplyBounds(m, a, f, text, key);
        var (b, g, rest) := Apply(m, a, f, text, key).value;
        RunBounds(m, if b then t else e, g, rest, key);
  }

  lemma ApplyBounds(m: Matchers, a: Action, f: Finding, text: string, key: Option<string>)
    requires f.count >= 0 && forall k :: 0 <= k < |f.sizes| ==> 0.0 < f.sizes[k] <= 100.0
    requires Apply(m, a, f, text, key).Ok?
    ensures Apply(m, a, f, text, key).value.1.count >= 0
    ensures forall k :: 0 <= k < |Apply(m, a, f, text, key).value.1.sizes| ==> 0.0 < Apply(m, a, f, text, key).value.1.sizes[k] <= 100.0
  {
  }

  // ---------------------------------------------------------------- the builder

  datatype FindingType = NaiveFindingType | SingleFindingType

  /** The non-ghost side of `get_count`: the largest of the qualifying values and the table's value. */
  method CountIn(text: string) returns (r: Option<nat>)
    ensures r == Count(text)
  {
    var floor := CountFloor(text);
    if floor.None? {
      return None;
    }
    var tokens := SplitNonWord(text);
    var values := NumbersFollowedBy(tokens, NumberValues, ["polyp", "polyps"], 3);
    var best := MaxWith(values, floor.value);
    LargestOfValues(values, Image(PolypNumbers(text), NumberValues), floor.value, best);
    r := Some(best);
  }

  /** `max(values + [floor])`. */
  method MaxWith(values: seq<nat>, floor: nat) returns (best: nat)
    ensures best >= floor && (best == floor || best in values)
    ensures forall k :: 0 <= k < |values| ==> values[k] <= best
  {
    best := floor;
    var i := 0;
    while i < |values|
      invariant i <= |values|
      invariant best >= floor && (best == floor || best in values[..i])
      invariant forall k :: 0 <= k < i ==> values[k] <= best
    {
      if values[i] > best {
        best := values[i];
      }
      i := i + 1;
    }
    assert values[..i] == values;
  }

  /** The largest of a list and a floor is the largest of the set the list enumerates, with 0 and the floor. */
  lemma LargestOfValues(values: seq<nat>, img: set<nat>, floor: nat, best: nat)
    requires forall v :: v in values <==> v in img
    requires best >= floor && (best == floor || best in values)
    requires forall k :: 0 <= k < |values| ==> values[k] <= best
    ensures Largest(img + {0, floor}) == best
  {
    var s := img + {0, floor};
    assert best in s;
    assert forall y :: y in s ==> y <= best;
    var l := Largest(s);
    assert l <= best && best <= l;
  }

  /** One step of the machine, as the builder performs it. */
  method Act(m: Matchers, a: Action, f: Finding, text: string, key: Option<string>) returns (r: Result<(bool, Finding, string)>)
    ensures r == Apply(m, a, f, text, key)
  {
    match a {
      case Exclude => r := Ok((!Excluded(key, text), f, text));
      case ExtractSize1 => r := ExtractSize(m.inSize(text), f, text);
      case ExtractSize2 => r := ExtractSize(m.size(text), f, text);
      case ExtractDepth1 => r := ExtractDepth(m.atDepth(text), f, text);
      case ExtractDepth2 => r := ExtractDepth(m.cmDepth(text), f, text);
      case ExtractLocation => r := Err(ValueError("too many values to unpack (expected 2)"));
      case WasRemoved => r := Ok((Removed(text), f.(removal := Removed(text)), text));
      case GetCount =>
        var c := CountIn(text);
        if c.None? {
          r := Ok((false, f, text));
        } else {
          r := Ok((c.value > 0, f.(count := c.value), text));
        }
    }
  }

  /** `FindingBuilder`: the findings read so far. */
  class FindingBuilder {
    var findings: seq<Finding>
    const splitFindings: bool

    constructor (splitFindings: bool)
      ensures findings == [] && this.splitFindings == splitFindings
    {
      findings := [];
      this.splitFindings := splitFindings;
    }

    /** `FindingBuilder(version, split_findings)`: only SINGLE_FINDING is accepted. */
    static method Create(version: FindingType, splitFindings: bool) returns (r: Result<FindingBuilder>)
      ensures r.Err? <==> version != SingleFindingType
      ensures r.Err? ==> r.error.ValueError?
      ensures r.Ok? ==> fresh(r.value) && r.value.findings == [] && r.value.splitFindings == splitFindings
    {
      if version != SingleFindingType {
        return Err(ValueError("Unknown Finding class: NAIVE_FINDING"));
      }
      var b := new FindingBuilder(splitFindings);
      return Ok(b);
    }

    /** `fsm(text)`: runs the machine to DONE and appends exactly the one finding it built. */
    method Fsm(m: Matchers, text: string) returns (r: Result<Finding>)
      modifies this
      ensures r == Built(m, text)
      ensures r.Ok? ==> findings == old(findings) + [r.value]
      ensures r.Err? ==> findings == old(findings)
    {
      var (key, rest) := SplitKeyText(text);
      var finding := Blank;
      var state := Start;
      while true
        invariant Run(m, state, finding, rest, key) == Built(m, text)
        invariant findings == old(findings)
        decreases Rank(state)
      {
        var entry := Table(state);
        if entry.None? {
          return Err(KeyError("NONE"));
        }
        if entry.value.Accept? {
          break;
        }
        var step := Act(m, entry.value.action, finding, rest, key);
        if step.Err? {
          return Err(step.error);
        }
        var (b, g, next) := step.value;
        state := if b then entry.value.ifTrue else entry.value.ifFalse;
        finding := g;
        rest := next;
      }
      findings := findings + [finding];
      r := Ok(finding);
    }

    /** `get_merged_findings()`. */
    method MergedFindings() returns (r: seq<Finding>)
      ensures r == Merged(findings)
    {
      if findings == [] {
        return [];
      }
      var done: seq<Finding> := [];
      var prev := findings[0];
      var i := 1;
      while i < |findings|
        invariant 1 <= i <= |findings|
        invariant done + MergeFrom(prev, findings[i..]) == Merged(findings)
      {
        assert findings[i..][1..] == findings[i + 1..];
        if CanMerge(prev, findings[i]) {
          prev := Merge(prev, findings[i]);
        } else {
          assert done + MergeFrom(prev, findings[i..]) == (done + [prev]) + MergeFrom(findings[i], findings[i + 1..]);
          done := done + [prev];
          prev := findings[i];
        }
        i := i + 1;
      }
      assert findings[i..] == [];
      r := done + [prev];
    }

    /**
     * `split_findings(*findings)`: stores each finding, or a copy per
     * location up to its count, and returns the locations beyond the count.
     */
    method SplitFindings(fs: seq<Finding>) returns (extra: seq<Segment>)
      modifies this
      ensures findings == old(findings) + Copies(fs)
      ensures extra == Extras(fs)
    {
      var curr;
      curr, extra := SplitEach(fs);
      findings := findings + curr;
    }

    /** The loop of `split_findings`: the findings to store and the extra locations. */
    static method SplitEach(fs: seq<Finding>) returns (curr: seq<Finding>, extra: seq<Segment>)
      ensures curr == Copies(fs) && extra == Extras(fs)
    {
      curr, extra := [], [];
      var i := 0;
      while i < |fs|
        invariant i <= |fs|
        invariant curr == Copies(fs[..i])
        invariant extra == Extras(fs[..i])
      {
        var copies, more := SplitOne(fs[i]);
        SplitStep(fs, i);
        curr := curr + copies;
        extra := extra + more;
        i := i + 1;
      }
      assert fs[..i] == fs;
    }

    static lemma SplitStep(fs: seq<Finding>, i: nat)
      requires i < |fs|
      ensures Copies(fs[..i + 1]) == Copies(fs[..i]) + CopiesOf(fs[i])
      ensures Extras(fs[..i + 1]) == Extras(fs[..i]) + ExtraOf(fs[i])
    {
      assert fs[..i + 1] == fs[..i] + [fs[i]];
      CopiesSnoc(fs[..i], fs[i]);
    }

    /** The body of the loop of `split_findings` for one finding. */
    static method SplitOne(f: Finding) returns (copies: seq<Finding>, more: seq<Segment>)
      ensures copies == CopiesOf(f) && more == ExtraOf(f)
    {
      if |f.locations| <= 1 {
        copies, more := [f], [];
      } else {
        copies := CopyEach(f);
        more := Drop(f.locations, f.count);
      }
    }

    /** The inner loop of `split_findings`: a copy of the finding per location up to its count. */
    static method CopyEach(f: Finding) returns (cs: seq<Finding>)
      requires |f.locations| > 1
      ensures cs == CopiesOf(f)
    {
      var locs := Take(f.locations, f.count);
      cs := [];
      var j := 0;
      while j < |locs|
        invariant j <= |locs|
        invariant cs == CopiesOf(f)[..j]
      {
        assert CopiesOf(f)[..j + 1] == CopiesOf(f)[..j] + [Copy(f, locs[j])];
        cs := cs + [Copy(f, locs[j])];
        j := j + 1;
      }
      assert CopiesOf(f)[..j] == CopiesOf(f);
    }

    /** `split_findings2(*findings)`: the splits of the given truthy findings, or of the stored ones when none are given. */
    function SplitFindings2(fs: seq<Finding>): (r: seq<Finding>)
      reads this
      ensures forall i :: 0 <= i < |r| ==> Truthy(r[i])
    {
      SplitAllTruthy(if fs == [] then findings else fs);
      SplitAll(if fs == [] then findings else fs)
    }
  }
}
