/**
 * The finding pattern library: a table of literal phrasings whose named
 * groups give a finding directly. The regular expressions themselves are
 * not modelled; each pattern's match on the text is an input (its named
 * groups, or None when it does not match).
 */
module FindingPatterns {
  import opened Wrappers
  import opened Text

  /** A match's named groups; an optional group that took no part in the match is None. */
  type Groups = map<string, Option<string>>

  /** The keys of `FINDING_PATTERNS`, in table order. */
  const PatternNames: seq<string> := [
    "POLYP_SIZE_IN_LOCATION", "POLYP_SIZE_3W_LOCATION", "POLYP_SIZE_3W_RECTUM",
    "POLYPS_SIZE_3W_LOCATION", "POLYPS_SIZE_3W_LOCATIONS"
  ]

  /** The group names of a one-size pattern and of a two-size pattern. */
  const OneSizeKeys: set<string> := {"location", "measure", "size"}
  const TwoSizeKeys: set<string> := {"location", "measure1", "measure2", "size1", "size2"}

  /** The named groups each pattern of the table declares. */
  function PatternKeys(name: string): set<string>
  {
    if name in PatternNames[..3] then OneSizeKeys else TwoSizeKeys
  }

  /**
   * What `apply_finding_patterns` yields: a count, the sizes in mm, the
   * location words as matched (not standardised), and the source it was given.
   */
  datatype PatternFinding = PatternFinding(count: nat, sizes: seq<nat>, locations: seq<Option<string>>, source: Option<string>)

  /** Python truthiness of an optional group. */
  predicate Given(g: Option<string>) { g.Some? && g.value != "" }

  /** `measure and measure.lower().strip() == 'cm'`. */
  predicate IsCm(g: Option<string>) { g.Some? && Strip(Lower(g.value)) == "cm" }

  /** `int(s)` for a size group: a group that took no part raises TypeError, anything but digits ValueError. */
  function Int(g: Option<string>): (r: Result<nat>)
    ensures r.Ok? <==> g.Some? && g.value != [] && AllDigits(g.value)
  {
    if g.None? then Err(TypeError("int() argument must be a string, not 'NoneType'"))
    else if g.value != [] && AllDigits(g.value) then Ok(DigitsValue(g.value))
    else Err(ValueError("invalid literal for int() with base 10: " + g.value))
  }

  /**
   * `get_size(size, measure, measure2)`: the number, times ten when its own
   * unit is 'cm', or when it has no unit and the other size's unit is 'cm'.
   */
  function GetSize(size: Option<string>, measure: Option<string>, measure2: Option<string>): (r: Result<nat>)
    ensures r.Ok? <==> Int(size).Ok?
  {
    match Int(size)
      case Err(e) => Err(e)
      case Ok(n) =>
        if Given(measure) && IsCm(measure) then Ok(n * 10)
        else if !Given(measure) && Given(measure2) && IsCm(measure2) then Ok(n * 10)
        else Ok(n)
  }

  /** The size is in mm: ten times the number exactly when the unit that applies is 'cm'. */
  lemma GetSizeUnit(size: Option<string>, measure: Option<string>, measure2: Option<string>)
    requires Int(size).Ok?
    ensures var n, r := Int(size).value, GetSize(size, measure, measure2).value;
      (IsCm(measure) || (!Given(measure) && IsCm(measure2)) ==> r == 10 * n)
      && (!IsCm(measure) && (Given(measure) || !IsCm(measure2)) ==> r == n)
  {
  }

  /** The second unit is consulted only when the size has no unit of its own. */
  lemma OwnUnitWins(size: Option<string>, measure: Option<string>, m2: Option<string>, m3: Option<string>)
    requires Given(measure)
    ensures GetSize(size, measure, m2) == GetSize(size, measure, m3)
  {
  }

  /** "polyps 1 to 3 cm": the first size takes the second size's unit. */
  lemma SharedUnit()
    ensures GetSize(Some("1"), None, Some("cm")) == Ok(10)
    ensures GetSize(Some("3"), Some("cm"), None) == Ok(30)
    ensures GetSize(Some("3"), Some("mm"), Some("cm")) == Ok(3)
  {
    assert AllDigits("1") && AllDigits("3");
    assert DigitsValue("1") == 1 by { assert "1"[..0] == []; }
    assert DigitsValue("3") == 3 by { assert "3"[..0] == []; }
    assert Lower("cm") == "cm";
    assert Strip("cm") == "cm";
    assert Lower("mm") == "mm";
    assert Strip("mm") == "mm";
  }

  /** The finding one match's groups describe, dispatched on the set of group names. */
  function FromGroups(d: Groups, source: Option<string>): (r: Result<PatternFinding>)
  {
    if d.Keys == OneSizeKeys then
      match GetSize(d["size"], d["measure"], None)
        case Err(e) => Err(e)
        case Ok(s) => Ok(PatternFinding(1, [s], [d["location"]], source))
    else if d.Keys == TwoSizeKeys then
      match GetSize(d["size1"], d["measure1"], d["measure2"])
        case Err(e) => Err(e)
        case Ok(s1) =>
          match GetSize(d["size2"], d["measure2"], d["measure1"])
            case Err(e) => Err(e)
            case Ok(s2) => Ok(PatternFinding(2, [s1, s2], [d["location"]], source))
    else Err(ValueError("Unrecognized"))
  }

  /**
   * One size gives a count of 1, two sizes a count of 2 (the first read
   * with the second unit as fallback, the second with the first); the
   * location is the one matched; any other set of group names raises.
   */
  lemma FromGroupsShape(d: Groups, source: Option<string>)
    ensures var r := FromGroups(d, source);
      && (r.Ok? ==> r.value.count == |r.value.sizes| && r.value.locations == [d["location"]] && r.value.source == source)
      && (r.Ok? && r.value.count == 1 <==> d.Keys == OneSizeKeys && Int(d["size"]).Ok?)
      && (r.Ok? && r.value.count == 2 <==> d.Keys == TwoSizeKeys && Int(d["size1"]).Ok? && Int(d["size2"]).Ok?)
      && (r.Ok? && r.value.count == 2 ==> r.value.sizes == [GetSize(d["size1"], d["measure1"], d["measure2"]).value,
                                                             GetSize(d["size2"], d["measure2"], d["measure1"]).value])
      && (d.Keys != OneSizeKeys && d.Keys != TwoSizeKeys ==> r == Err(ValueError("Unrecognized")))
  {
  }

  /**
   * `apply_finding_patterns(text, source)`: the finding of the first pattern
   * in table order that matches, and nothing after it; nothing when none matches.
   */
  function Apply(hits: seq<Option<Groups>>, source: Option<string>): (r: Result<seq<PatternFinding>>)
    ensures r.Ok? ==> |r.value| <= 1
  {
    if hits == [] then Ok([])
    else if hits[0].Some? then
      match FromGroups(hits[0].value, source)
        case Err(e) => Err(e)
        case Ok(f) => Ok([f])
    else Apply(hits[1..], source)
  }

  /** The first matching pattern decides; the matches of later patterns play no part. */
  lemma {:induction false} ApplyFirstMatch(hits: seq<Option<Groups>>, source: Option<string>, i: nat)
    requires i < |hits| && hits[i].Some? && forall j :: 0 <= j < i ==> hits[j].None?
    ensures Apply(hits, source) == match FromGroups(hits[i].value, source)
                                     case Err(e) => Err(e)
                                     case Ok(f) => Ok([f])
    decreases i
  {
    if i > 0 {
      assert forall j :: 0 <= j < i - 1 ==> hits[1..][j] == hits[j + 1];
      ApplyFirstMatch(hits[1..], source, i - 1);
    }
  }

  /** Nothing is yielded exactly when no pattern matches (and nothing raises then). */
  lemma {:induction false} ApplyNothing(hits: seq<Option<Groups>>, source: Option<string>)
    ensures Apply(hits, source) == Ok([]) <==> forall j :: 0 <= j < |hits| ==> hits[j].None?
    decreases |hits|
  {
    if hits != [] {
      ApplyNothing(hits[1..], source);
      if hits[0].None? {
        assert forall j :: 1 <= j < |hits| ==> hits[j] == hits[1..][j - 1];
      }
    }
  }

  /**
   * A match of a table pattern has that pattern's groups, its size groups
   * take part and hold digits, so for the table's own patterns the
   * unrecognised-groups error cannot happen and nothing raises.
   */
  predicate TableMatch(name: string, d: Groups)
  {
    d.Keys == PatternKeys(name)
    && (d.Keys == OneSizeKeys ==> Int(d["size"]).Ok?)
    && (d.Keys == TwoSizeKeys ==> Int(d["size1"]).Ok? && Int(d["size2"]).Ok?)
  }

  lemma ApplyTableNeverRaises(hits: seq<Option<Groups>>, source: Option<string>)
    requires |hits| == |PatternNames|
    requires forall j :: 0 <= j < |hits| && hits[j].Some? ==> TableMatch(PatternNames[j], hits[j].value)
    ensures Apply(hits, source).Ok?
  {
    if j :| 0 <= j < |hits| && hits[j].Some? {
      var i := FirstSome(hits, j);
      ApplyFirstMatch(hits, source, i);
      FromGroupsShape(hits[i].value, source);
    } else {
      ApplyNothing(hits, source);
    }
  }

  /** The first index holding a match, at or before a known one. */
  function FirstSome(hits: seq<Option<Groups>>, j: nat): (i: nat)
    requires j < |hits| && hits[j].Some?
    ensures i <= j && hits[i].Some? && forall k :: 0 <= k < i ==> hits[k].None?
  {
    if hits[0].Some? then 0
    else
      var i := FirstSome(hits[1..], j - 1);
      assert forall k :: 1 <= k <= i ==> hits[k] == hits[1..][k - 1];
      i + 1
  }

  // ---------------------------------------------------------------- as written

  /** Loading the module as written: `FindingSource` is not defined in the finding builder, so the import fails. */
  const ModuleLoadAsWritten: Result<()> :=
    Err(ImportError("cannot import name 'FindingSource' from 'precise_nlp.extract.cspy.finding_builder'"))

  /** The message of the `Finding(..., source=...)` call, whose dataclass has no `source` field. */
  const SourceKeywordError := TypeError("Finding.__init__() got an unexpected keyword argument 'source'")

  /**
   * One match's groups as written: the sizes are read first (their errors
   * come first), then building the Finding with `source=` raises TypeError.
   */
  function FromGroupsAsWritten(d: Groups, source: Option<string>): (r: Result<PatternFinding>)
    ensures r.Err?
    ensures FromGroups(d, source).Ok? ==> r == Err(SourceKeywordError)
    ensures FromGroups(d, source).Err? ==> r == FromGroups(d, source)
  {
    if d.Keys == OneSizeKeys then
      match GetSize(d["size"], d["measure"], None)
        case Err(e) => Err(e)
        case Ok(_) => Err(SourceKeywordError)
    else if d.Keys == TwoSizeKeys then
      match GetSize(d["size1"], d["measure1"], d["measure2"])
        case Err(e) => Err(e)
        case Ok(_) =>
          match GetSize(d["size2"], d["measure2"], d["measure1"])
            case Err(e) => Err(e)
            case Ok(_) => Err(SourceKeywordError)
    else Err(ValueError("Unrecognized"))
  }

  /** `apply_finding_patterns` as written, were the module to load: the first matching pattern raises. */
  function ApplyAsWritten(hits: seq<Option<Groups>>, source: Option<string>): Result<seq<PatternFinding>>
  {
    if hits == [] then Ok([])
    else if hits[0].Some? then
      match FromGroupsAsWritten(hits[0].value, source)
        case Err(e) => Err(e)
        case Ok(f) => Ok([f])
    else ApplyAsWritten(hits[1..], source)
  }

  /**
   * As written, nothing is ever yielded: no match gives nothing, any match
   * raises; where the intended function yields a finding, the as-written
   * one raises the TypeError of the `source` keyword.
   */
  lemma {:induction false} ApplyAsWrittenNeverYields(hits: seq<Option<Groups>>, source: Option<string>)
    ensures ApplyAsWritten(hits, source).Ok? ==> ApplyAsWritten(hits, source) == Ok([])
    ensures ApplyAsWritten(hits, source) == Ok([]) <==> Apply(hits, source) == Ok([])
    ensures Apply(hits, source).Ok? && Apply(hits, source).value != [] ==> ApplyAsWritten(hits, source) == Err(SourceKeywordError)
    decreases |hits|
  {
    if hits != [] && hits[0].None? {
      ApplyAsWrittenNeverYields(hits[1..], source);
    }
  }

  /** "5 mm" reads 5. */
  lemma FiveMm()
    ensures GetSize(Some("5"), Some("mm"), None) == Ok(5)
  {
    assert AllDigits("5");
    assert DigitsValue("5") == 5 by { assert "5"[..0] == []; }
    assert Lower("mm") == "mm";
    assert Strip("mm") == "mm";
  }

  /** "polyp 5 mm in the sigmoid colon": the intended table yields a 5 mm finding, the code as written raises. */
  lemma SourceKeywordFails()
    ensures var d: Groups := map["size" := Some("5"), "measure" := Some("mm"), "location" := Some("sigmoid")];
      && Apply([Some(d)], None) == Ok([PatternFinding(1, [5], [Some("sigmoid")], None)])
      && ApplyAsWritten([Some(d)], None) == Err(SourceKeywordError)
  {
    var d: Groups := map["size" := Some("5"), "measure" := Some("mm"), "location" := Some("sigmoid")];
    assert d.Keys == OneSizeKeys;
    assert d["size"] == Some("5") && d["measure"] == Some("mm") && d["location"] == Some("sigmoid");
    FiveMm();
    assert FromGroups(d, None) == Ok(PatternFinding(1, [5], [Some("sigmoid")], None));
    assert FromGroupsAsWritten(d, None) == Err(SourceKeywordError);
  }
}
