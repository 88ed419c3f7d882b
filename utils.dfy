/**
 * Shared terminology: depth (cm from the anus) to colon segment, the
 * location and histology vocabularies, the number words, bowel-preparation
 * words and the indication priority.
 */
module Utils {
  import opened Wrappers
  import opened Text
  import opened Enums

  // ---------------------------------------------------------------- segments

  /**
   * The standard location names a term can be standardised to. The model
   * keeps a jar's or a finding's locations as these values; the Python code
   * keeps their names ('anus', ..., 'proximal', 'distal', 'random').
   */
  datatype Segment =
    | Anus | Rectum | Sigmoid | Descending | Hepatic | Transverse | Splenic | Ascending | Cecum
    | ProximalColon | DistalColon | Bowel | Duodenum | Jejunum | Ileum | Stomach | RandomSite

  /** `COLON` ('ileocecum' is listed too, but no term standardises to it). */
  const ColonSegments: set<Segment> :=
    {Anus, Rectum, Sigmoid, Descending, Ascending, Hepatic, Transverse, Splenic, Cecum, ProximalColon, DistalColon}
  /** `RECTAL_LOCATIONS`. */
  const RectalSegments: set<Segment> := {Rectum}
  /** `DISTAL_LOCATIONS` ('left' is listed too, but it standardises to 'distal'). */
  const DistalSegments: set<Segment> := {Descending, Sigmoid, DistalColon, Splenic, Rectum}
  /** `PROXIMAL_LOCATIONS` ('right' is listed too, but it standardises to 'proximal'). */
  const ProximalSegments: set<Segment> := {ProximalColon, Ascending, Transverse, Cecum, Hepatic}

  // ---------------------------------------------------------------- depth

  /** A closed interval of depths; a missing end is unbounded. */
  datatype Interval = Interval(lo: Option<real>, hi: Option<real>)

  predicate Inside(iv: Interval, d: real) {
    (iv.lo.None? || iv.lo.value <= d) && (iv.hi.None? || d <= iv.hi.value)
  }

  /** The segments reached at each depth in cm, in the order they are reported. */
  const DepthBands: seq<(Segment, Interval)> := [
    (Anus, Interval(None, Some(4.0))),
    (Rectum, Interval(Some(4.0), Some(17.0))),
    (Sigmoid, Interval(Some(15.0), Some(57.0))),
    (Descending, Interval(Some(57.0), Some(82.0))),
    (Hepatic, Interval(Some(80.0), Some(84.0))),
    (Transverse, Interval(Some(82.0), Some(132.0))),
    (Splenic, Interval(Some(130.0), Some(134.0))),
    (Ascending, Interval(Some(132.0), Some(147.0))),
    (Cecum, Interval(Some(147.0), None))
  ]

  /** The segments of the bands that contain d, in band order. */
  function BandsAt(bands: seq<(Segment, Interval)>, d: real): (r: seq<Segment>)
    ensures |r| <= |bands|
  {
    if bands == [] then []
    else BandsAt(bands[..|bands| - 1], d) + (if Inside(bands[|bands| - 1].1, d) then [bands[|bands| - 1].0] else [])
  }

  /** One more band appended to a table is reported when it contains d. */
  lemma BandsAtSnoc(bands: seq<(Segment, Interval)>, b: (Segment, Interval), d: real)
    ensures BandsAt(bands + [b], d) == BandsAt(bands, d) + (if Inside(b.1, d) then [b.0] else [])
  {
    assert (bands + [b])[..|bands|] == bands;
  }

  /** `[x]` when c holds, otherwise nothing. */
  function Hit(c: bool, x: Segment): (r: seq<Segment>)
    ensures x in r <==> c
    ensures |r| <= 1
  {
    if c then [x] else []
  }

  /** The first five bands of the table read band by band. */
  lemma DepthBandsLower(d: real)
    ensures BandsAt(DepthBands[..5], d) ==
      Hit(d <= 4.0, Anus) + Hit(4.0 <= d <= 17.0, Rectum) + Hit(15.0 <= d <= 57.0, Sigmoid)
      + Hit(57.0 <= d <= 82.0, Descending) + Hit(80.0 <= d <= 84.0, Hepatic)
  {
    var b := DepthBands;
    assert BandsAt(b[..1], d) == Hit(d <= 4.0, Anus) by { assert b[..1][..0] == []; }
    assert BandsAt(b[..2], d) == BandsAt(b[..1], d) + Hit(4.0 <= d <= 17.0, Rectum) by { assert b[..2][..1] == b[..1]; }
    assert BandsAt(b[..3], d) == BandsAt(b[..2], d) + Hit(15.0 <= d <= 57.0, Sigmoid) by { assert b[..3][..2] == b[..2]; }
    assert BandsAt(b[..4], d) == BandsAt(b[..3], d) + Hit(57.0 <= d <= 82.0, Descending) by { assert b[..4][..3] == b[..3]; }
    assert BandsAt(b[..5], d) == BandsAt(b[..4], d) + Hit(80.0 <= d <= 84.0, Hepatic) by { assert b[..5][..4] == b[..4]; }
  }

  /** The last four bands of the table read band by band. */
  lemma DepthBandsUpper(d: real)
    ensures BandsAt(DepthBands, d) == BandsAt(DepthBands[..5], d)
      + Hit(82.0 <= d <= 132.0, Transverse) + Hit(130.0 <= d <= 134.0, Splenic)
      + Hit(132.0 <= d <= 147.0, Ascending) + Hit(147.0 <= d, Cecum)
  {
    var b := DepthBands;
    assert BandsAt(b[..6], d) == BandsAt(b[..5], d) + Hit(82.0 <= d <= 132.0, Transverse) by { assert b[..6][..5] == b[..5]; }
    assert BandsAt(b[..7], d) == BandsAt(b[..6], d) + Hit(130.0 <= d <= 134.0, Splenic) by { assert b[..7][..6] == b[..6]; }
    assert BandsAt(b[..8], d) == BandsAt(b[..7], d) + Hit(132.0 <= d <= 147.0, Ascending) by { assert b[..8][..7] == b[..7]; }
    assert BandsAt(b, d) == BandsAt(b[..8], d) + Hit(147.0 <= d, Cecum);
  }

  /** The table read band by band: one test per band, in the table's order. */
  lemma DepthBandsUnfold(d: real)
    ensures BandsAt(DepthBands, d) ==
      Hit(d <= 4.0, Anus) + Hit(4.0 <= d <= 17.0, Rectum) + Hit(15.0 <= d <= 57.0, Sigmoid)
      + Hit(57.0 <= d <= 82.0, Descending) + Hit(80.0 <= d <= 84.0, Hepatic) + Hit(82.0 <= d <= 132.0, Transverse)
      + Hit(130.0 <= d <= 134.0, Splenic) + Hit(132.0 <= d <= 147.0, Ascending) + Hit(147.0 <= d, Cecum)
  {
    DepthBandsLower(d);
    DepthBandsUpper(d);
  }

  /** `depth_to_location(depth)`: one test per band, in the table's order. */
  method DepthToLocation(depth: real) returns (locations: seq<Segment>)
    ensures locations == BandsAt(DepthBands, depth)
  {
    locations := [];
    if depth <= 4.0 { locations := locations + [Anus]; }
    if 4.0 <= depth <= 17.0 { locations := locations + [Rectum]; }
    if 15.0 <= depth <= 57.0 { locations := locations + [Sigmoid]; }
    if 57.0 <= depth <= 82.0 { locations := locations + [Descending]; }
    if 80.0 <= depth <= 84.0 { locations := locations + [Hepatic]; }
    if 82.0 <= depth <= 132.0 { locations := locations + [Transverse]; }
    if 130.0 <= depth <= 134.0 { locations := locations + [Splenic]; }
    if 132.0 <= depth <= 147.0 { locations := locations + [Ascending]; }
    if 147.0 <= depth { locations := locations + [Cecum]; }
    DepthBandsUnfold(depth);
  }

  /** A segment is reported exactly when one of its bands contains the depth. */
  lemma {:induction false} BandsAtMembers(bands: seq<(Segment, Interval)>, d: real, x: Segment)
    ensures x in BandsAt(bands, d) <==> exists k :: 0 <= k < |bands| && bands[k].0 == x && Inside(bands[k].1, d)
  {
    if bands != [] {
      var front := bands[..|bands| - 1];
      BandsAtMembers(front, d, x);
      assert forall k :: 0 <= k < |front| ==> front[k] == bands[k];
    }
  }

  /** The bands cover the whole line: every depth names at least one segment. */
  lemma DepthAlwaysLocated(d: real)
    ensures BandsAt(DepthBands, d) != []
  {
    var k :=
      if d <= 4.0 then 0 else if d <= 17.0 then 1 else if d <= 57.0 then 2
      else if d <= 82.0 then 3 else if d <= 132.0 then 5 else if d <= 147.0 then 7 else 8;
    BandsAtMembers(DepthBands, d, DepthBands[k].0);
  }

  /** At a band boundary both segments are reported, e.g. 4 cm is anus and rectum. */
  lemma DepthFourIsAnusAndRectum()
    ensures BandsAt(DepthBands, 4.0) == [Anus, Rectum]
  {
    var b := DepthBands;
    assert b[..1] == [b[0]] && b[..2] == b[..1] + [b[1]];
    assert BandsAt(b[..2], 4.0) == [Anus, Rectum];
    var k := 2;
    while k < 9
      invariant 2 <= k <= 9
      invariant BandsAt(b[..k], 4.0) == [Anus, Rectum]
    {
      assert b[..k + 1] == b[..k] + [b[k]];
      BandsAtSnoc(b[..k], b[k], 4.0);
      k := k + 1;
    }
    assert b[..9] == b;
  }

  // ---------------------------------------------------------------- location terms

  /** A location term stands for one segment or, for a tuple in the table, two. */
  datatype Std = One(seg: Segment) | Pair(first: Segment, second: Segment)

  function Names(s: Std): seq<Segment>
  {
    match s
      case One(n) => [n]
      case Pair(a, b) => [a, b]
  }

  /** The keys of `LOCATIONS`, in the table's order. */
  const LocationKeys: seq<string> := LocationKeysColon + LocationKeysSides + LocationKeysOther

  const LocationKeysColon: seq<string> := [
    "anus", "anal", "rectum", "rectal", "rectosigmoid", "rectosig", "sigmoid", "sig", "sc",
    "dc", "descending", "descenging", "ascending", "ac", "asend", "ascend"
  ]
  const LocationKeysSides: seq<string> := [
    "hf", "hepatic", "transverse", "transv", "tc", "splenic", "cecum", "cecal", "right",
    "proximal", "left", "distal", "ileocecal", "ileo cecal", "ileocecum", "ileo cecum"
  ]
  const LocationKeysOther: seq<string> := [
    "ic", "anorectum", "anorectal", "bowel", "duodenum", "duodenal", "jejunum", "jejunal",
    "ileum", "ileal", "ti", "gastric", "stomach", "random"
  ]

  /** `k in LOCATIONS`. */
  predicate IsLocationTerm(k: string) { Among(k, LocationKeys) }

  /** `LOCATIONS[k]`. */
  function LocationOf(k: string): Std
  {
    if k in {"anus", "anal"} then One(Anus)
    else if k in {"rectum", "rectal"} then One(Rectum)
    else if k in {"rectosigmoid", "rectosig"} then Pair(Rectum, Sigmoid)
    else if k in {"sigmoid", "sig", "sc"} then One(Sigmoid)
    else if k in {"dc", "descending", "descenging"} then One(Descending)
    else if k in {"ascending", "ac", "asend", "ascend"} then One(Ascending)
    else if k in {"hf", "hepatic"} then One(Hepatic)
    else if k in {"transverse", "transv", "tc"} then One(Transverse)
    else if k in {"splenic"} then One(Splenic)
    else if k in {"cecum", "cecal", "ileocecal", "ileo cecal", "ileocecum", "ileo cecum", "ic"} then One(Cecum)
    else if k in {"right", "proximal"} then One(ProximalColon)
    else if k in {"left", "distal"} then One(DistalColon)
    else if k in {"anorectum", "anorectal"} then Pair(Anus, Rectum)
    else if k in {"bowel"} then One(Bowel)
    else if k in {"duodenum", "duodenal"} then One(Duodenum)
    else if k in {"jejunum", "jejunal"} then One(Jejunum)
    else if k in {"ileum", "ileal", "ti"} then One(Ileum)
    else if k in {"gastric", "stomach"} then One(Stomach)
    else One(RandomSite)
  }

  /** `standardize_location(el)`: an unknown term is a ValueError. */
  function StandardizeLocation(el: string): (r: Result<Std>)
    ensures r.Ok? <==> IsLocationTerm(Lower(el))
    ensures r.Ok? ==> r.value == LocationOf(Lower(el))
    ensures r.Err? ==> r.error.ValueError?
  {
    if IsLocationTerm(Lower(el)) then Ok(LocationOf(Lower(el)))
    else Err(ValueError("Unknown location: " + el))
  }

  /** What one term contributes: its segments, or, for the colon filter, its segment if it is a single colon segment. */
  function Emit(s: Std, colonOnly: bool): seq<Segment>
  {
    if !colonOnly then Names(s)
    else if s.One? && s.seg in ColonSegments then [s.seg]
    else []
  }

  /** `standardize_locations(lst, colon_only)`: stops at the first unknown term. */
  function Standardized(lst: seq<string>, colonOnly: bool): (r: Result<seq<Segment>>)
  {
    if lst == [] then Ok([])
    else
      match Standardized(lst[..|lst| - 1], colonOnly)
        case Err(e) => Err(e)
        case Ok(prefix) =>
          match StandardizeLocation(lst[|lst| - 1])
            case Err(e) => Err(e)
            case Ok(s) => Ok(prefix + Emit(s, colonOnly))
  }

  method StandardizeLocations(lst: seq<string>, colonOnly: bool) returns (r: Result<seq<Segment>>)
    ensures r == Standardized(lst, colonOnly)
  {
    var res := [];
    var i := 0;
    while i < |lst|
      invariant 0 <= i <= |lst|
      invariant Standardized(lst[..i], colonOnly) == Ok(res)
    {
      assert lst[..i + 1][..i] == lst[..i];
      var loc := StandardizeLocation(lst[i]);
      if loc.Err? {
        r := Err(loc.error);
        StandardizedKeepsError(lst, i + 1, colonOnly);
        return;
      }
      res := res + Emit(loc.value, colonOnly);
      i := i + 1;
    }
    assert lst[..i] == lst;
    r := Ok(res);
  }

  /** An error in a prefix is the error of the whole list. */
  lemma {:induction false} StandardizedKeepsError(lst: seq<string>, k: nat, colonOnly: bool)
    requires k <= |lst| && Standardized(lst[..k], colonOnly).Err?
    ensures Standardized(lst, colonOnly) == Standardized(lst[..k], colonOnly)
    decreases |lst| - k
  {
    if k < |lst| {
      assert lst[..k + 1][..k] == lst[..k];
      StandardizedKeepsError(lst, k + 1, colonOnly);
    } else {
      assert lst[..k] == lst;
    }
  }

  /** The list standardises without error exactly when every term is in the table. */
  lemma {:induction false} StandardizedOkIffKnown(lst: seq<string>, colonOnly: bool)
    ensures Standardized(lst, colonOnly).Ok? <==> forall i :: 0 <= i < |lst| ==> IsLocationTerm(Lower(lst[i]))
  {
    if lst != [] {
      var front := lst[..|lst| - 1];
      StandardizedOkIffKnown(front, colonOnly);
      assert forall i :: 0 <= i < |front| ==> front[i] == lst[i];
    }
  }

  /** Without the colon filter the output lists, in order, the segments of each term (tuples flattened). */
  lemma {:induction false} StandardizedFlattens(lst: seq<string>, x: Segment)
    requires Standardized(lst, false).Ok?
    ensures x in Standardized(lst, false).value <==>
      exists i :: 0 <= i < |lst| && x in Names(LocationOf(Lower(lst[i])))
  {
    if lst != [] {
      var front := lst[..|lst| - 1];
      StandardizedFlattens(front, x);
      assert forall i :: 0 <= i < |front| ==> front[i] == lst[i];
    }
  }

  /** `filter_colon(lst)`. */
  function FilterColon(lst: seq<string>): Result<seq<Segment>> { Standardized(lst, true) }

  /** The colon filter keeps colon segments only. */
  lemma {:induction false} FilterColonInColon(lst: seq<string>)
    requires FilterColon(lst).Ok?
    ensures forall x :: x in FilterColon(lst).value ==> x in ColonSegments
  {
    if lst != [] {
      FilterColonInColon(lst[..|lst| - 1]);
    }
  }

  // ---------------------------------------------------------------- histology

  const HistologyTerms: map<string, Histology> := map[
    "tubular" := Tubular,
    "tubulovillous" := Tubulovillous, "tubulovil" := Tubulovillous, "villotubular" := Tubulovillous,
    "villous" := Villous, "villiform" := Villous
  ]

  /** The keys of `HISTOLOGY`, as the rule walk tests them. */
  const HistologyKeys: seq<string> := ["tubular", "tubulovillous", "tubulovil", "villotubular", "villous", "villiform"]

  lemma HistologyKeysAreTerms(k: string)
    ensures Among(k, HistologyKeys) <==> k in HistologyTerms
  {
    AmongIsIn(k, HistologyKeys);
  }

  /** `StandardTerminology.histology(item)`: an unknown term is a ValueError. */
  function HistologyOf(item: string): (r: Result<Histology>)
    ensures r.Ok? <==> Lower(item) in HistologyTerms
    ensures r.Ok? ==> r.value == HistologyTerms[Lower(item)]
  {
    if Lower(item) in HistologyTerms then Ok(HistologyTerms[Lower(item)])
    else Err(ValueError("Unknown histology: " + item))
  }

  // ---------------------------------------------------------------- numbers

  /** `NumberConvert.VALUES`: number words and single digits. */
  const NumberValues: map<string, nat> := map[
    "a" := 1, "an" := 1, "one" := 1, "two" := 2, "three" := 3, "four" := 4, "five" := 5,
    "six" := 6, "seven" := 7, "eight" := 8, "nine" := 9, "ten" := 10,
    "0" := 0, "1" := 1, "2" := 2, "3" := 3, "4" := 4, "5" := 5, "6" := 6, "7" := 7,
    "8" := 8, "9" := 9
  ]

  /** The position of the last occurrence of t (the index a dict comprehension keeps). */
  function LastIndex(tokens: seq<string>, t: string): (r: nat)
    requires t in tokens
    ensures r < |tokens| && tokens[r] == t
    ensures forall k :: r < k < |tokens| ==> tokens[k] != t
  {
    if tokens[|tokens| - 1] == t then |tokens| - 1 else LastIndex(tokens[..|tokens| - 1], t)
  }

  /** Python's `s[a:b]` for 0 <= a. */
  function Slice<T>(s: seq<T>, a: nat, b: nat): (r: seq<T>)
    ensures |r| <= |s|
  {
    if a >= |s| || b <= a then [] else s[a..if b <= |s| then b else |s|]
  }

  /** The elements of a slice are the elements at the positions it covers. */
  lemma SliceMembers<T>(s: seq<T>, a: nat, b: nat, x: T)
    ensures x in Slice(s, a, b) <==> exists k :: a <= k < b && k < |s| && s[k] == x
  {
    if x in Slice(s, a, b) {
      var j :| 0 <= j < |Slice(s, a, b)| && Slice(s, a, b)[j] == x;
      assert s[a + j] == x;
    }
  }

  /** A number token qualifies when no follower is asked for, or one follows its last occurrence within distance. */
  predicate Qualifies(tokens: seq<string>, t: string, followedBy: seq<string>, distance: nat)
    requires t in tokens
  {
    var start := LastIndex(tokens, t) + 1;
    followedBy == [] || exists f :: f in followedBy && f in Slice(tokens, start, start + distance)
  }

  /** The distinct number tokens of the text that qualify. */
  function QualifyingNumbers(tokens: seq<string>, values: map<string, nat>, followedBy: seq<string>, distance: nat): set<string>
  {
    set t | t in tokens && t in values && Qualifies(tokens, t, followedBy, distance)
  }

  /** The values a set of table keys stands for. */
  function Image(keys: set<string>, values: map<string, nat>): set<nat>
    requires keys <= values.Keys
  {
    set t | t in keys :: values[t]
  }

  lemma ImageAdd(keys: set<string>, t: string, values: map<string, nat>)
    requires keys <= values.Keys && t in values
    ensures Image(keys + {t}, values) == Image(keys, values) + {values[t]}
  {
  }

  /** Taking a wanted key from the keys still to visit keeps the loop's bookkeeping. */
  lemma PickOne(q: set<string>, picked: set<string>, todo: set<string>, t: string)
    requires picked <= q && picked !! todo && forall x :: x in q ==> x in picked || x in todo
    requires t in todo && t in q
    ensures picked + {t} <= q && (picked + {t}) !! (todo - {t}) && |picked + {t}| == |picked| + 1
    ensures forall x :: x in q ==> x in picked + {t} || x in todo - {t}
  {
  }

  /** Passing over an unwanted key keeps it too. */
  lemma PassOne(q: set<string>, picked: set<string>, todo: set<string>, t: string)
    requires picked <= q && picked !! todo && forall x :: x in q ==> x in picked || x in todo
    requires t in todo && t !in q
    ensures picked !! (todo - {t}) && forall x :: x in q ==> x in picked || x in todo - {t}
  {
  }

  /**
   * `NumberConvert.contains` on the already split text, with `values` the
   * number table: one value per qualifying distinct number token, in an
   * unspecified order (Python iterates a set here).
   */
  method NumbersFollowedBy(tokens: seq<string>, values: map<string, nat>, followedBy: seq<string>, distance: nat)
    returns (results: seq<nat>)
    ensures |results| == |QualifyingNumbers(tokens, values, followedBy, distance)|
    ensures forall v :: v in results <==> v in Image(QualifyingNumbers(tokens, values, followedBy, distance), values)
  {
    ghost var q := QualifyingNumbers(tokens, values, followedBy, distance);
    var todo := set t | t in tokens && t in values;
    ghost var picked: set<string> := {};
    results := [];
    while todo != {}
      invariant forall t :: t in todo ==> t in tokens && t in values
      invariant picked <= q && picked !! todo
      invariant forall t :: t in q ==> t in picked || t in todo
      invariant |results| == |picked|
      invariant forall v :: v in results <==> v in Image(picked, values)
      decreases |todo|
    {
      var t :| t in todo;
      if Qualifies(tokens, t, followedBy, distance) {
        assert t in q;
        PickOne(q, picked, todo, t);
        ImageAdd(picked, t, values);
        results := results + [values[t]];
        picked := picked + {t};
      } else {
        assert t !in q;
        PassOne(q, picked, todo, t);
      }
      todo := todo - {t};
    }
    assert picked == q;
  }

  // ---------------------------------------------------------------- preparation, indication, extent

  datatype Prep = Adequate | Inadequate | UnknownPrep

  const PrepValues: map<string, Prep> := map[
    "excellent" := Adequate, "well" := Adequate, "good" := Adequate, "moderate" := Adequate,
    "adequate" := Adequate, "optimal" := Adequate, "ideal" := Adequate,
    "fair" := Inadequate, "poor" := Inadequate, "inadequate" := Inadequate, "suboptimal" := Inadequate
  ]

  datatype Indication = Diagnostic | Surveillance | Screening | UnknownIndication

  /** `IndicationPriority`: most important first. */
  const IndicationPriority: seq<Indication> := [Diagnostic, Surveillance, Screening]

  datatype Extent = Complete | Incomplete | PossibleComplete | UnknownExtent
}
