/**
 * The colonoscopy report manager (`CspyManager`): it splits a report into
 * titled sections, breaks the findings sections into list items, reads a
 * finding from each item, and takes the indication, the bowel preparation
 * and the procedure extent from the report's text.
 */
module Cspy {
  import opened Wrappers
  import opened Text
  import opened Utils
  import opened Patterns
  import opened FindingBuilders
  import opened BaseFindings

  /**
   * The regular expressions the manager uses, as functions: the title
   * splitter (which keeps the headers as pieces), `re.compile(p).split`
   * for a pattern built at run time, the two sentence splitters, the
   * finding matchers and the report-level patterns of `patterns.py`.
   * `prepPre` and `prepPost` yield the word the `prep` group captured.
   */
  datatype Regexes = Regexes(
    titleSplit: string -> seq<string>,
    split: (string, string) -> seq<string>,
    sentences: string -> seq<string>,
    noPeriod: string -> seq<string>,
    matchers: Matchers,
    diagnostic: string -> bool,
    surveillance: string -> bool,
    screening: string -> bool,
    complete: string -> bool,
    incomplete: string -> bool,
    prepPre: string -> Option<string>,
    prepPost: string -> Option<string>)

  /** `FindingVersion`. */
  datatype Version = Broad | Precise

  /** `LABELS[FINDINGS]` and `LABELS[INDICATIONS]`. */
  const FindingLabels: seq<string> := ["Findings", "Impression"]
  const IndicationLabels: seq<string> := ["INDICATIONS", "Indications"]

  /** The bullet characters that mark a list item. */
  const ListMarkers: seq<char> := ['\U{00B7}', '\U{2022}', '-', '*']

  // ---------------------------------------------------------------- sections

  /** The variables of the `_get_sections` loop. */
  datatype SectionsState = SectionsState(
    title: string, sections: map<string, string>, curr: Option<string>, prevItem: bool)

  predicate CurrKnown(st: SectionsState) { st.curr.Some? ==> st.curr.value in st.sections }

  /** A piece opens a section when it ends in ':' or mentions a problem list. */
  predicate IsHeader(el: string) { EndsWith(el, ":") || Contains(el, "Problem List") }

  /**
   * The piece ends like a list item: a bullet (unless the piece holds a
   * '----' rule) or a digit followed by ')' or '.' (`ENUMERATE_PATTERN`
   * on the last two characters).
   */
  predicate ItemEnd(el: string)
  {
    var t := Strip(el);
    t != [] &&
    ((t[|t| - 1] in ListMarkers && !Contains(el, "----"))
     || (|t| >= 2 && IsDigit(t[|t| - 2]) && (t[|t| - 1] == ')' || t[|t| - 1] == '.')))
  }

  /** One turn of the `_get_sections` loop. */
  function SectionStep(st: SectionsState, el: string): (r: SectionsState)
    requires CurrKnown(st)
    ensures CurrKnown(r)
  {
    if Strip(el) == [] then st
    else if IsHeader(el) && !st.prevItem then
      var k := el[..|el| - 1];
      SectionsState(st.title, if k in st.sections then st.sections else st.sections[k := ""], Some(k), ItemEnd(el))
    else if st.curr.None? then
      if st.title == [] then st.(title := Strip(el)) else st
    else
      var k := st.curr.value;
      var text := st.sections[k];
      st.(sections := st.sections[k := if text != [] then text + " " + el else el], prevItem := ItemEnd(el))
  }

  /** The loop's variables after the given pieces. */
  function SectionsAfter(st: SectionsState, pieces: seq<string>): (r: SectionsState)
    requires CurrKnown(st)
    ensures CurrKnown(r)
    decreases |pieces|, 1
  {
    if pieces == [] then st else LastStep(st, pieces)
  }

  /** The turn for the last piece. */
  function LastStep(st: SectionsState, pieces: seq<string>): (r: SectionsState)
    requires CurrKnown(st) && pieces != []
    ensures CurrKnown(r)
    decreases |pieces|, 0
  {
    SectionStep(SectionsAfter(st, pieces[..|pieces| - 1]), pieces[|pieces| - 1])
  }

  lemma SectionsAfterLast(st: SectionsState, pieces: seq<string>)
    requires CurrKnown(st) && pieces != []
    ensures SectionsAfter(st, pieces) == SectionStep(SectionsAfter(st, pieces[..|pieces| - 1]), pieces[|pieces| - 1])
  {
    assert SectionsAfter(st, pieces) == LastStep(st, pieces);
  }

  /** Before the first piece: no title, no section, no current header. */
  const NoSections: SectionsState := SectionsState([], map[], None, false)

  lemma SectionsAfterSnoc(st: SectionsState, pieces: seq<string>, i: nat)
    requires CurrKnown(st) && i < |pieces|
    ensures SectionsAfter(st, pieces[..i + 1]) == SectionStep(SectionsAfter(st, pieces[..i]), pieces[i])
  {
    assert pieces[..i + 1][..i] == pieces[..i];
    SectionsAfterLast(st, pieces[..i + 1]);
  }

  /** A text is a prefix of another. */
  predicate Extends(a: string, b: string) { |a| <= |b| && b[..|a|] == a }

  /** One piece never shortens a section nor drops one. */
  lemma StepGrows(st: SectionsState, el: string)
    requires CurrKnown(st)
    ensures forall k :: k in st.sections ==>
      k in SectionStep(st, el).sections && Extends(st.sections[k], SectionStep(st, el).sections[k])
  {
    if Strip(el) != [] && !(IsHeader(el) && !st.prevItem) && st.curr.Some? {
      var c := st.curr.value;
      var text := st.sections[c];
      var text' := if text != [] then text + " " + el else el;
      assert text == [] || text'[..|text|] == text;
    }
  }

  lemma ExtendsTrans(a: string, b: string, c: string)
    requires Extends(a, b) && Extends(b, c)
    ensures Extends(a, c)
  {
    assert c[..|a|] == c[..|b|][..|a|];
  }

  /**
   * No section is ever reset: a header seen again keeps the text read so
   * far, and text after it is appended, so every section's text only grows.
   */
  lemma {:induction false} SectionsOnlyGrow(st: SectionsState, pieces: seq<string>)
    requires CurrKnown(st)
    ensures forall k :: k in st.sections ==>
      k in SectionsAfter(st, pieces).sections && Extends(st.sections[k], SectionsAfter(st, pieces).sections[k])
    decreases |pieces|
  {
    if pieces != [] {
      var front := pieces[..|pieces| - 1];
      SectionsOnlyGrow(st, front);
      var mid := SectionsAfter(st, front);
      var el := pieces[|pieces| - 1];
      SectionsAfterLast(st, pieces);
      StepGrows(mid, el);
      forall k | k in st.sections
        ensures k in SectionsAfter(st, pieces).sections && Extends(st.sections[k], SectionsAfter(st, pieces).sections[k])
      {
        ExtendsTrans(st.sections[k], mid.sections[k], SectionStep(mid, el).sections[k]);
      }
    }
  }

  /**
   * A repeated header with text after it: the section keeps its text and
   * gains the new piece, after a space when it was not empty.
   */
  lemma RepeatedHeaderAppends(st: SectionsState, header: string, el: string)
    requires CurrKnown(st)
    requires Strip(header) != [] && IsHeader(header) && !st.prevItem
    requires header[..|header| - 1] in st.sections
    requires Strip(el) != [] && !(IsHeader(el) && !ItemEnd(header))
    ensures var k := header[..|header| - 1];
      var text := st.sections[k];
      SectionStep(SectionStep(st, header), el).sections
        == st.sections[k := if text != [] then text + " " + el else el]
  {
  }

  /** A report whose first non-blank piece is not a header takes that piece, stripped, as its title. */
  lemma TitleIsFirstText(el: string)
    requires Strip(el) != [] && !IsHeader(el)
    ensures SectionStep(NoSections, el).title == Strip(el)
  {
  }

  /** Once set, the title is never replaced. */
  lemma {:induction false} TitleKept(st: SectionsState, pieces: seq<string>)
    requires CurrKnown(st) && st.title != []
    ensures SectionsAfter(st, pieces).title == st.title
    decreases |pieces|
  {
    if pieces != [] {
      TitleKept(st, pieces[..|pieces| - 1]);
      SectionsAfterLast(st, pieces);
    }
  }

  /** Every section is named by a header piece with its last character cut. */
  lemma {:induction false} SectionsFromHeaders(st: SectionsState, pieces: seq<string>, k: string)
    requires CurrKnown(st)
    requires k in SectionsAfter(st, pieces).sections
    ensures k in st.sections
      || exists j :: 0 <= j < |pieces| && pieces[j] != [] && IsHeader(pieces[j]) && pieces[j][..|pieces[j]| - 1] == k
    decreases |pieces|
  {
    if pieces != [] {
      var front := pieces[..|pieces| - 1];
      var el := pieces[|pieces| - 1];
      SectionsAfterLast(st, pieces);
      if k in SectionsAfter(st, front).sections {
        SectionsFromHeaders(st, front, k);
        if !(k in st.sections) {
          var j :| 0 <= j < |front| && front[j] != [] && IsHeader(front[j]) && front[j][..|front[j]| - 1] == k;
          assert pieces[j] == front[j];
        }
      } else {
        assert el != [] && IsHeader(el) && el[..|el| - 1] == k;
      }
    }
  }

  /**
   * `_get_section(category)`: the non-empty texts of the sections with the
   * category's labels, in label order.
   */
  function SectionTexts(sections: map<string, string>, labels: seq<string>): (r: seq<string>)
    ensures forall x :: x in r <==> x != [] && exists k :: k in labels && k in sections && sections[k] == x
    ensures |r| <= |labels|
  {
    if labels == [] then []
    else
      var k := labels[0];
      var rest := SectionTexts(sections, labels[1..]);
      if k in sections && sections[k] != [] then [sections[k]] + rest else rest
  }

  // ---------------------------------------------------------------- list items

  /** The text after the last c (`s.split(c)[-1]`); all of s when c does not occur. */
  function AfterLast(s: string, c: char): (r: string)
    ensures EndsWith(s, r) && c !in r
    ensures c in s ==> |r| < |s|
    ensures c !in s ==> r == s
  {
    if s == [] then []
    else if s[|s| - 1] == c then []
    else AfterLast(s[..|s| - 1], c) + [s[|s| - 1]]
  }

  /**
   * `_deenumerate(sect)`: the list items of a section's text. A text
   * starting with '--', a bullet or '1' followed by ')', '-' or '.' is cut
   * at each further marker. A long text without such a start is cut after
   * its last ':', or else into sentences (whichever splitter gives more
   * pieces). A short one is a single item, and a blank one has none.
   */
  function Deenumerate(rx: Regexes, sect0: string): (r: Result<seq<string>>)
    ensures r.Err? ==> r.error == IndexError
    decreases |sect0|
  {
    var sect := Strip(sect0);
    if sect == [] then Ok([])
    else if StartsWith(sect, "--") then Ok(rx.split("\\W--", sect[2..]))
    else if sect[0] in ListMarkers then Ok(rx.split("\\W" + [sect[0]], sect[1..]))
    else if sect[0] == '1' && |sect| < 2 then Err(IndexError)
    else if sect[0] == '1' && sect[1] in ")-." then Ok(rx.split("\\W\\d\\" + [sect[1]], sect[2..]))
    else if |sect| > 100 then
      if ':' in sect then
        // an empty result of the recursive call falls through to `return []`
        Deenumerate(rx, AfterLast(sect, ':'))
      else
        var periods, lines := rx.sentences(sect), rx.noPeriod(sect);
        Ok(if |periods| > |lines| then periods else lines)
    else Ok([sect])
  }

  /** A blank text has no items. */
  lemma DeenumerateBlank(rx: Regexes, sect: string)
    requires Strip(sect) == []
    ensures Deenumerate(rx, sect) == Ok([])
  {
  }

  /** A text of at most 100 characters with no list marker at its start is one item, stripped. */
  lemma DeenumerateUnmarked(rx: Regexes, sect: string)
    requires var t := Strip(sect);
      t != [] && |t| <= 100 && t[0] !in ListMarkers && !(t[0] == '1' && (|t| < 2 || t[1] in ")-."))
    ensures Deenumerate(rx, sect) == Ok([Strip(sect)])
  {
  }

  /** A lone '1' is read as an enumeration and fails on the missing second character. */
  lemma DeenumerateLoneOne(rx: Regexes, sect: string)
    requires Strip(sect) == "1"
    ensures Deenumerate(rx, sect) == Err(IndexError)
  {
    assert !StartsWith("1", "--") && "1"[0] !in ListMarkers;
  }

  /** A bulleted text is split at the bullet, with the leading bullet dropped. */
  lemma DeenumerateBullets(rx: Regexes, sect: string)
    requires var t := Strip(sect); t != [] && t[0] == '*'
    ensures Deenumerate(rx, sect) == Ok(rx.split("\\W*", Strip(sect)[1..]))
  {
    var t := Strip(sect);
    assert !StartsWith(t, "--");
    assert "\\W" + [t[0]] == "\\W*";
  }

  // ---------------------------------------------------------------- broad findings

  /** `NOT_FINDING_PATTERN`: 'exam' or 'lesion', in any case, starting a word. */
  predicate MentionAt(t: string, i: nat)
    requires i <= |t|
  {
    (i == 0 || !IsWordChar(t[i - 1])) && (StartsWith(t[i..], "exam") || StartsWith(t[i..], "lesion"))
  }

  predicate NotFinding(s: string)
  {
    var t := Lower(s);
    exists i :: 0 <= i < |t| && MentionAt(t, i)
  }

  /** The items that reach the finding parser. */
  function FindingSegments(segs: seq<string>): (r: seq<string>)
    ensures forall s :: s in r <==> s in segs && !NotFinding(s)
  {
    if segs == [] then []
    else if NotFinding(segs[0]) then FindingSegments(segs[1..])
    else [segs[0]] + FindingSegments(segs[1..])
  }

  /**
   * `list(set(locations))`: each location once. The order of a Python set
   * is not fixed; the model keeps first occurrences in order.
   */
  function Dedup(s: seq<Segment>): (r: seq<Segment>)
    ensures forall x :: x in r <==> x in s
    ensures forall i, j :: 0 <= i < j < |r| ==> r[i] != r[j]
  {
    if s == [] then []
    else
      var d := Dedup(s[..|s| - 1]);
      if s[|s| - 1] in d then d else d + [s[|s| - 1]]
  }

  predicate NonNegCounts(fs: seq<FindingValue>) { forall k :: 0 <= k < |fs| ==> fs[k].rawCount >= 0 }

  /**
   * `_parse_section`'s update of a section's findings: a finding compatible
   * with the last one is merged into it, one that stands alone is appended,
   * and any other is dropped.
   */
  function AddFinding(fs: seq<FindingValue>, v: FindingValue, prev: Option<seq<Segment>>): (r: seq<FindingValue>)
    ensures fs == [] && prev.None? ==> r == [v]
    ensures |fs| <= |r| <= |fs| + 1
    ensures fs != [] ==> |r| > 0 && r[..|fs| - 1] == fs[..|fs| - 1]
    ensures NonNegCounts(fs) && v.rawCount >= 0 ==> NonNegCounts(r)
  {
    if fs != [] && NaiveCompatible(v, fs[|fs| - 1]) then
      var last := MergedValue(fs[|fs| - 1], v);
      assert (fs[..|fs| - 1] + [last])[..|fs| - 1] == fs[..|fs| - 1];
      fs[..|fs| - 1] + [last]
    else if Standalone(v, prev) then
      assert fs != [] ==> (fs + [v])[..|fs| - 1] == fs[..|fs| - 1];
      fs + [v]
    else fs
  }

  /**
   * The variables of the `_parse_sections` loop: whether the section's
   * entry has been created (`findings[label]` is first touched there), its
   * findings, and the previous finding's locations.
   */
  datatype Parse = Parse(touched: bool, findings: seq<FindingValue>, prev: Option<seq<Segment>>)

  const NoParse: Parse := Parse(false, [], None)

  /** `_parse_sections` over the remaining items, from the given loop state. */
  ghost function ParseFrom(m: Matchers, segs: seq<string>, p: Parse): Result<Parse>
    decreases |segs|, 1
  {
    if segs == [] then Ok(p) else ParseHead(m, segs, p)
  }

  /** One turn of the loop: skip the item, or parse it and fold the finding in. */
  ghost function ParseHead(m: Matchers, segs: seq<string>, p: Parse): Result<Parse>
    requires segs != []
    decreases |segs|, 0
  {
    if NotFinding(segs[0]) then ParseFrom(m, segs[1..], p)
    else match Parsed(m, segs[0], p.prev)
      case Err(e) => Err(e)
      case Ok(v) => ParseFrom(m, segs[1..], Parse(true, AddFinding(p.findings, v, p.prev), Some(Dedup(v.locations))))
  }


  /** Items mentioning an exam or a lesion are skipped as if they were not there. */
  lemma {:induction false} ParseSkipsNonFindings(m: Matchers, segs: seq<string>, p: Parse)
    ensures ParseFrom(m, segs, p) == ParseFrom(m, FindingSegments(segs), p)
    decreases |segs|
  {
    if segs != [] {
      if NotFinding(segs[0]) {
        ParseSkipsNonFindings(m, segs[1..], p);
      } else {
        var fs := FindingSegments(segs);
        assert fs[0] == segs[0] && fs[1..] == FindingSegments(segs[1..]);
        match Parsed(m, segs[0], p.prev)
        case Err(e) =>
        case Ok(v) =>
          ParseSkipsNonFindings(m, segs[1..], Parse(true, AddFinding(p.findings, v, p.prev), Some(Dedup(v.locations))));
      }
    }
  }

  /** The invariant of the loop: the entry exists exactly when it holds a finding. */
  predicate ParseGood(p: Parse)
  {
    (p.touched ==> p.findings != []) && (!p.touched ==> p.findings == [] && p.prev.None?) && NonNegCounts(p.findings)
  }

  /**
   * A section's entry is created exactly when some item reaches the
   * parser; it then holds at least one finding (the first always stands
   * alone) and at most one per item parsed.
   */
  lemma {:induction false} ParseOutcome(m: Matchers, segs: seq<string>, p: Parse)
    requires ParseGood(p) && ParseFrom(m, segs, p).Ok?
    ensures var q := ParseFrom(m, segs, p).value;
      ParseGood(q) && (q.touched <==> p.touched || FindingSegments(segs) != [])
      && |q.findings| <= |p.findings| + |FindingSegments(segs)|
    decreases |segs|
  {
    if segs != [] {
      if NotFinding(segs[0]) {
        ParseOutcome(m, segs[1..], p);
      } else {
        ParsedCount(m, segs[0], p.prev);
        var v := Parsed(m, segs[0], p.prev).value;
        var p' := Parse(true, AddFinding(p.findings, v, p.prev), Some(Dedup(v.locations)));
        ParseOutcome(m, segs[1..], p');
        assert FindingSegments(segs) == [segs[0]] + FindingSegments(segs[1..]);
      }
    }
  }

  /** The findings of a report, by section label, in label order. */
  type Entries = seq<(string, seq<FindingValue>)>

  /** `_deenumerate` then `_parse_sections` for one non-empty section. */
  ghost function SectionFindings(rx: Regexes, key: string, sect: string): Result<Entries>
  {
    match Deenumerate(rx, sect)
    case Err(e) => Err(e)
    case Ok(segs) =>
      match ParseFrom(rx.matchers, segs, NoParse)
      case Err(e) => Err(e)
      case Ok(p) => Ok(if p.touched then [(key, p.findings)] else [])
  }

  /** `get_findings_broad` over the remaining labels, after the entries read so far. */
  ghost function BroadFrom(rx: Regexes, sections: map<string, string>, labels: seq<string>, acc: Entries): Result<Entries>
    decreases |labels|
  {
    if labels == [] then Ok(acc)
    else if labels[0] in sections && sections[labels[0]] != [] then
      match SectionFindings(rx, labels[0], sections[labels[0]])
      case Err(e) => Err(e)
      case Ok(es) => BroadFrom(rx, sections, labels[1..], acc + es)
    else BroadFrom(rx, sections, labels[1..], acc)
  }

  /** Every entry holds findings, all with a count of at least zero. */
  predicate EntriesGood(es: Entries)
  {
    forall i :: 0 <= i < |es| ==> es[i].1 != [] && NonNegCounts(es[i].1)
  }

  /** A section gives at most one entry, under its own label, holding at least one finding. */
  lemma SectionEntries(rx: Regexes, key: string, sect: string)
    requires SectionFindings(rx, key, sect).Ok?
    ensures var es := SectionFindings(rx, key, sect).value;
      EntriesGood(es) && |es| <= 1 && forall i :: 0 <= i < |es| ==> es[i].0 == key
  {
    ParseOutcome(rx.matchers, Deenumerate(rx, sect).value, NoParse);
  }

  lemma EntriesGoodAppend(a: Entries, b: Entries)
    requires EntriesGood(a) && EntriesGood(b)
    ensures EntriesGood(a + b)
  {
    assert forall i :: |a| <= i < |a + b| ==> (a + b)[i] == b[i - |a|];
  }

  /** Every entry of the broad findings is a finding label's and holds at least one finding. */
  lemma {:induction false} BroadEntries(rx: Regexes, sections: map<string, string>, labels: seq<string>, acc: Entries)
    requires EntriesGood(acc) && BroadFrom(rx, sections, labels, acc).Ok?
    ensures var es := BroadFrom(rx, sections, labels, acc).value;
      EntriesGood(es) && |acc| <= |es| && es[..|acc|] == acc
      && forall i :: |acc| <= i < |es| ==> es[i].0 in labels
    decreases |labels|
  {
    if labels != [] {
      var key := labels[0];
      var all := BroadFrom(rx, sections, labels, acc).value;
      var acc' := acc;
      if key in sections && sections[key] != [] {
        SectionEntries(rx, key, sections[key]);
        var es := SectionFindings(rx, key, sections[key]).value;
        EntriesGoodAppend(acc, es);
        acc' := acc + es;
        assert all == BroadFrom(rx, sections, labels[1..], acc').value;
      } else {
        assert all == BroadFrom(rx, sections, labels[1..], acc').value;
      }
      BroadEntries(rx, sections, labels[1..], acc');
      assert all[..|acc'|] == acc';
      assert all[..|acc|] == acc'[..|acc|] == acc;
      forall i | |acc| <= i < |all|
        ensures all[i].0 in labels
      {
        if i >= |acc'| {
          assert all[i].0 in labels[1..];
        } else {
          assert all[i] == acc'[i];
        }
      }
    }
  }

  // ---------------------------------------------------------------- precise findings

  /** `fb.fsm(segment)` for each item in turn; the first failure is raised. */
  ghost function BuiltAll(m: Matchers, segs: seq<string>): Result<()>
    decreases |segs|, 1
  {
    if segs == [] then Ok(()) else BuiltHead(m, segs)
  }

  ghost function BuiltHead(m: Matchers, segs: seq<string>): Result<()>
    requires segs != []
    decreases |segs|, 0
  {
    match Built(m, segs[0])
    case Err(e) => Err(e)
    case Ok(_) => BuiltAll(m, segs[1..])
  }


  /**
   * `get_findings_precise` over the remaining labels: it runs a finding
   * builder over each section's items and keeps none of its findings.
   */
  ghost function PreciseFrom(rx: Regexes, sections: map<string, string>, labels: seq<string>): Result<()>
    decreases |labels|
  {
    if labels == [] then Ok(())
    else if labels[0] in sections && sections[labels[0]] != [] then
      match Deenumerate(rx, sections[labels[0]])
      case Err(e) => Err(e)
      case Ok(segs) =>
        match BuiltAll(rx.matchers, segs)
        case Err(e) => Err(e)
        case Ok(_) => PreciseFrom(rx, sections, labels[1..])
    else PreciseFrom(rx, sections, labels[1..])
  }

  /** `get_findings(version)`: the broad findings, or None after a precise run. */
  ghost function FindingsOf(version: Version, rx: Regexes, sections: map<string, string>): Result<Option<Entries>>
  {
    if version == Broad then
      match BroadFrom(rx, sections, FindingLabels, [])
      case Err(e) => Err(e)
      case Ok(es) => Ok(Some(es))
    else
      match PreciseFrom(rx, sections, FindingLabels)
      case Err(e) => Err(e)
      case Ok(_) => Ok(None)
  }

  // ---------------------------------------------------------------- number of polyps

  /** `sum(f.count for f in findings)`. */
  function CountSum(fs: seq<FindingValue>): (r: int)
    ensures NonNegCounts(fs) ==> r >= |fs|
  {
    if fs == [] then 0 else CountSum(fs[..|fs| - 1]) + CountOf(Naive, fs[|fs| - 1])
  }

  /** The largest count sum over the entries. */
  function MostPolyps(es: Entries): (r: int)
    requires es != []
    ensures forall i :: 0 <= i < |es| ==> CountSum(es[i].1) <= r
    ensures exists i :: 0 <= i < |es| && CountSum(es[i].1) == r
  {
    if |es| == 1 then CountSum(es[0].1)
    else
      var rest := MostPolyps(es[1..]);
      assert forall i :: 1 <= i < |es| ==> es[i] == es[1..][i - 1];
      if CountSum(es[0].1) >= rest then CountSum(es[0].1) else rest
  }

  /** `num_polyps`: the most polyps any one section reports, or 0 without findings. */
  function NumPolyps(fs: Option<Entries>): (r: int)
  {
    if fs.None? || fs.value == [] then 0 else MostPolyps(fs.value)
  }

  /** A report with a findings entry has at least one polyp; one without has none. */
  lemma NumPolypsBounds(fs: Option<Entries>)
    requires fs.Some? ==> EntriesGood(fs.value)
    ensures (fs.None? || fs.value == []) <==> NumPolyps(fs) == 0
    ensures fs.Some? && fs.value != [] ==> NumPolyps(fs) >= 1
  {
    if fs.Some? && fs.value != [] {
      assert CountSum(fs.value[0].1) >= |fs.value[0].1| >= 1;
    }
  }

  // ---------------------------------------------------------------- indication, extent, preparation

  /** The one indication a section gives, tried in the order diagnostic, surveillance, screening. */
  function SectionIndication(rx: Regexes, s: string): Option<Indication>
  {
    if rx.diagnostic(s) then Some(Diagnostic)
    else if rx.surveillance(s) then Some(Surveillance)
    else if rx.screening(s) then Some(Screening)
    else None
  }

  /** The indications collected from the sections, in order. */
  function Collected(rx: Regexes, sects: seq<string>): (r: seq<Indication>)
    ensures |r| <= |sects|
    ensures forall ind :: ind in r <==> exists s :: s in sects && SectionIndication(rx, s) == Some(ind)
  {
    if sects == [] then []
    else
      var front := Collected(rx, sects[..|sects| - 1]);
      var s := sects[|sects| - 1];
      assert forall x :: x in sects <==> x in sects[..|sects| - 1] || x == s;
      match SectionIndication(rx, s)
      case Some(ind) => front + [ind]
      case None => front
  }

  /** The first indication of the priority list that was collected. */
  function FirstListed(priority: seq<Indication>, inds: seq<Indication>): (r: Indication)
    ensures (exists k :: 0 <= k < |priority| && priority[k] in inds) ==> r in priority && r in inds
    ensures !(exists k :: 0 <= k < |priority| && priority[k] in inds) ==> r == UnknownIndication
  {
    if priority == [] then UnknownIndication
    else if priority[0] in inds then priority[0]
    else FirstListed(priority[1..], inds)
  }

  /** `get_indication`, given the indications sections' texts. */
  function IndicationOf(rx: Regexes, sects: seq<string>): Indication
  {
    FirstListed(IndicationPriority, Collected(rx, sects))
  }

  /**
   * Diagnostic wins over surveillance, surveillance over screening, and
   * with none of them the indication is unknown.
   */
  lemma IndicationChosen(rx: Regexes, sects: seq<string>)
    ensures IndicationOf(rx, sects) == Diagnostic <==> exists s :: s in sects && rx.diagnostic(s)
    ensures IndicationOf(rx, sects) == Surveillance <==>
      (forall s :: s in sects ==> !rx.diagnostic(s)) && exists s :: s in sects && rx.surveillance(s)
    ensures IndicationOf(rx, sects) == Screening <==>
      (forall s :: s in sects ==> !rx.diagnostic(s) && !rx.surveillance(s)) && exists s :: s in sects && rx.screening(s)
    ensures IndicationOf(rx, sects) == UnknownIndication <==>
      forall s :: s in sects ==> !rx.diagnostic(s) && !rx.surveillance(s) && !rx.screening(s)
  {
    var inds := Collected(rx, sects);
    assert forall s :: SectionIndication(rx, s) == Some(Diagnostic) <==> rx.diagnostic(s);
    assert forall s :: SectionIndication(rx, s) == Some(Surveillance) <==> !rx.diagnostic(s) && rx.surveillance(s);
    assert forall s :: SectionIndication(rx, s) == Some(Screening) <==>
      !rx.diagnostic(s) && !rx.surveillance(s) && rx.screening(s);
    assert IndicationPriority == [Diagnostic, Surveillance, Screening];
    assert [Diagnostic, Surveillance, Screening][1..] == [Surveillance, Screening];
    assert [Surveillance, Screening][1..] == [Screening] && [Screening][1..] == [];
    assert FirstListed([Screening], inds) == if Screening in inds then Screening else UnknownIndication;
    assert FirstListed([Surveillance, Screening], inds) ==
      if Surveillance in inds then Surveillance else FirstListed([Screening], inds);
    assert IndicationOf(rx, sects) ==
      if Diagnostic in inds then Diagnostic
      else if Surveillance in inds then Surveillance
      else if Screening in inds then Screening
      else UnknownIndication;
  }

  /** `get_extent`: complete beats incomplete; neither is unknown. */
  function ExtentOf(rx: Regexes, text: string): (r: Extent)
    ensures r == Complete <==> rx.complete(text)
    ensures r == Incomplete <==> !rx.complete(text) && rx.incomplete(text)
    ensures r == UnknownExtent <==> !rx.complete(text) && !rx.incomplete(text)
  {
    if rx.complete(text) then Complete
    else if rx.incomplete(text) then Incomplete
    else UnknownExtent
  }

  /** The word the first matching preparation pattern captured. */
  function PrepWord(rx: Regexes, text: string): Option<string>
  {
    if rx.prepPre(text).Some? then rx.prepPre(text) else rx.prepPost(text)
  }

  /**
   * `get_prep`: the captured word, lower-cased, looked up in
   * `ColonPrep.VALUES` (a word missing there raises KeyError); unknown
   * when neither pattern matches.
   */
  function PrepOf(rx: Regexes, text: string): Result<Prep>
  {
    match PrepWord(rx, text)
    case None => Ok(UnknownPrep)
    case Some(word) =>
      var w := Lower(word);
      if w in PrepValues then Ok(PrepValues[w]) else Err(KeyError(w))
  }

  /** No prep word gives an unknown prep; a word outside the table is a key error. */
  lemma PrepOutcome(rx: Regexes, text: string)
    ensures PrepOf(rx, text) == Ok(UnknownPrep) <==> PrepWord(rx, text).None?
    ensures PrepOf(rx, text).Err? <==>
      PrepWord(rx, text).Some? && Lower(PrepWord(rx, text).value) !in PrepValues
    ensures PrepOf(rx, text).Err? ==> PrepOf(rx, text).error == KeyError(Lower(PrepWord(rx, text).value))
  {
    if PrepWord(rx, text).Some? {
      var w := Lower(PrepWord(rx, text).value);
      if w in PrepValues {
        assert PrepValues[w] != UnknownPrep;
      }
    }
  }

  /** A 'Fair' preparation is inadequate, whichever pattern found it. */
  lemma FairIsInadequate(rx: Regexes, text: string)
    requires PrepWord(rx, text) == Some("Fair")
    ensures PrepOf(rx, text) == Ok(Inadequate)
  {
    assert Lower("Fair") == "fair";
  }

  // ---------------------------------------------------------------- findings of a size

  /** The findings with a size of at least min, in order. */
  function Large(fs: seq<FindingValue>, min: real): (r: seq<FindingValue>)
    ensures forall v :: v in r <==> v in fs && SizeSet(v.size) && v.size.value >= min
  {
    if fs == [] then []
    else
      var front := Large(fs[..|fs| - 1], min);
      var v := fs[|fs| - 1];
      assert forall x :: x in fs <==> x in fs[..|fs| - 1] || x == v;
      if SizeSet(v.size) && v.size.value >= min then front + [v] else front
  }

  /** Some entry holds the finding. */
  predicate InSome(es: Entries, v: FindingValue) { exists i :: 0 <= i < |es| && v in es[i].1 }

  /** `get_findings_of_size(min_size)` over the entries, section by section. */
  function OfSize(es: Entries, min: real): (r: seq<FindingValue>)
    ensures forall v :: v in r <==> InSome(es, v) && SizeSet(v.size) && v.size.value >= min
  {
    if es == [] then []
    else
      var front := OfSize(es[..|es| - 1], min);
      assert forall v :: InSome(es, v) <==> InSome(es[..|es| - 1], v) || v in es[|es| - 1].1 by {
        forall v ensures InSome(es, v) <==> InSome(es[..|es| - 1], v) || v in es[|es| - 1].1 {
          if InSome(es, v) {
            var i :| 0 <= i < |es| && v in es[i].1;
            if i < |es| - 1 {
              assert es[..|es| - 1][i] == es[i];
            }
          }
          if InSome(es[..|es| - 1], v) {
            var i :| 0 <= i < |es| - 1 && v in es[..|es| - 1][i].1;
            assert es[..|es| - 1][i] == es[i];
          }
        }
      }
      front + Large(es[|es| - 1].1, min)
  }

  /** `get_findings_of_size`'s default minimum, in millimetres. */
  const DefaultMinSize: real := 10.0

  // ---------------------------------------------------------------- the manager

  /** The manager's attributes once `__init__` has finished. */
  datatype ManagerState = ManagerState(
    title: string, sections: map<string, string>, findings: Option<Entries>, numPolyps: int,
    indication: Indication, prep: Prep, extent: Extent)

  /** What `__init__` computes once the sections are read: the remaining attributes, or the exception raised. */
  ghost function Finished(text: string, version: Version, rx: Regexes, title: string, sections: map<string, string>): Result<ManagerState>
  {
    match FindingsOf(version, rx, sections)
    case Err(e) => Err(e)
    case Ok(fs) => Described(text, rx, title, sections, fs)
  }

  /** The attributes that follow the findings: the polyp count, the indication, the preparation and the extent. */
  function Described(text: string, rx: Regexes, title: string, sections: map<string, string>, fs: Option<Entries>): Result<ManagerState>
  {
    match PrepOf(rx, text)
    case Err(e) => Err(e)
    case Ok(p) =>
      Ok(ManagerState(title, sections, fs, NumPolyps(fs),
                      IndicationOf(rx, SectionTexts(sections, IndicationLabels)), p, ExtentOf(rx, text)))
  }

  /** `CspyManager(text, version)`: every attribute, or the exception `__init__` raises. */
  ghost function Opened(text: string, version: Version, rx: Regexes): Result<ManagerState>
  {
    var st := SectionsAfter(NoSections, rx.titleSplit(text));
    Finished(text, version, rx, st.title, st.sections)
  }

  /** A precise run keeps no findings, so it counts no polyp. */
  lemma PreciseHasNoFindings(text: string, rx: Regexes)
    requires Opened(text, Precise, rx).Ok?
    ensures Opened(text, Precise, rx).value.findings.None? && Opened(text, Precise, rx).value.numPolyps == 0
  {
  }

  /** A broad run counts at least one polyp exactly when some findings section gave a finding. */
  lemma BroadPolyps(text: string, rx: Regexes)
    requires Opened(text, Broad, rx).Ok?
    ensures var m := Opened(text, Broad, rx).value;
      m.findings.Some? && EntriesGood(m.findings.value)
      && (m.numPolyps >= 1 <==> m.findings.value != [])
  {
    var st := SectionsAfter(NoSections, rx.titleSplit(text));
    BroadEntries(rx, st.sections, FindingLabels, []);
    NumPolypsBounds(Opened(text, Broad, rx).value.findings);
  }

  class CspyManager {
    const text: string
    var title: string
    var sections: map<string, string>
    var findings: Option<Entries>
    var numPolyps: int
    var indication: Indication
    var prep: Prep
    var extent: Extent

    function State(): ManagerState
      reads this
    {
      ManagerState(title, sections, findings, numPolyps, indication, prep, extent)
    }

    /** The attributes before `_get_sections` runs. */
    constructor (text: string)
      ensures this.text == text
      ensures State() == ManagerState([], map[], None, 0, UnknownIndication, UnknownPrep, UnknownExtent)
    {
      this.text := text;
      title := [];
      sections := map[];
      findings := None;
      numPolyps := 0;
      indication := UnknownIndication;
      prep := UnknownPrep;
      extent := UnknownExtent;
    }

    /** One turn of the `_get_sections` loop over its variables. */
    static method Turn(title: string, sections: map<string, string>, curr: Option<string>, prevItem: bool, el: string)
      returns (title': string, sections': map<string, string>, curr': Option<string>, prevItem': bool)
      requires curr.Some? ==> curr.value in sections
      ensures SectionsState(title', sections', curr', prevItem') == SectionStep(SectionsState(title, sections, curr, prevItem), el)
    {
      title', sections', curr', prevItem' := title, sections, curr, prevItem;
      if Strip(el) == [] {
      } else if IsHeader(el) && !prevItem {
        var k := el[..|el| - 1];
        curr' := Some(k);
        if k !in sections {
          sections' := sections[k := ""];
        }
        prevItem' := ItemEnd(el);
      } else if curr.None? {
        if title == [] {
          title' := Strip(el);
        }
      } else {
        var k := curr.value;
        if sections[k] != [] {
          sections' := sections[k := sections[k] + " " + el];
        } else {
          sections' := sections[k := el];
        }
        prevItem' := ItemEnd(el);
      }
    }

    /** `_get_sections` over the title splitter's pieces. */
    method GetSections(pieces: seq<string>)
      modifies this
      ensures var st := SectionsAfter(SectionsState(old(title), old(sections), None, false), pieces);
        title == st.title && sections == st.sections
      ensures findings == old(findings) && numPolyps == old(numPolyps)
      ensures indication == old(indication) && prep == old(prep) && extent == old(extent)
    {
      var t, secs := title, sections;
      ghost var st0 := SectionsState(t, secs, None, false);
      var curr: Option<string> := None;
      var prevItem := false;
      var i := 0;
      while i < |pieces|
        invariant i <= |pieces|
        invariant curr.Some? ==> curr.value in secs
        invariant SectionsAfter(st0, pieces[..i]) == SectionsState(t, secs, curr, prevItem)
        modifies {}
      {
        SectionsAfterSnoc(st0, pieces, i);
        t, secs, curr, prevItem := Turn(t, secs, curr, prevItem, pieces[i]);
        i := i + 1;
      }
      assert pieces[..i] == pieces;
      title, sections := t, secs;
    }

    /** `get_indication`. */
    method GetIndication(rx: Regexes) returns (r: Indication)
      ensures r == IndicationOf(rx, SectionTexts(sections, IndicationLabels))
    {
      var sects := SectionTexts(sections, IndicationLabels);
      var inds: seq<Indication> := [];
      var i := 0;
      while i < |sects|
        invariant i <= |sects|
        invariant inds == Collected(rx, sects[..i])
      {
        var s := sects[i];
        assert sects[..i + 1][..i] == sects[..i];
        if rx.diagnostic(s) {
          inds := inds + [Diagnostic];
        } else if rx.surveillance(s) {
          inds := inds + [Surveillance];
        } else if rx.screening(s) {
          inds := inds + [Screening];
        }
        i := i + 1;
      }
      assert sects[..i] == sects;
      if inds != [] {
        var j := 0;
        while j < |IndicationPriority|
          invariant j <= |IndicationPriority|
          invariant FirstListed(IndicationPriority, inds) == FirstListed(IndicationPriority[j..], inds)
        {
          if IndicationPriority[j] in inds {
            return IndicationPriority[j];
          }
          j := j + 1;
        }
      }
      return UnknownIndication;
    }

    /** `get_findings(version)` over the sections read. */
    method GetFindings(version: Version, rx: Regexes) returns (r: Result<Option<Entries>>)
      ensures r == FindingsOf(version, rx, sections)
    {
      if version == Broad {
        var es := BroadLoop(rx, sections);
        if es.Err? {
          return Err(es.error);
        }
        return Ok(Some(es.value));
      } else {
        var done := PreciseLoop(rx, sections);
        if done.Err? {
          return Err(done.error);
        }
        return Ok(None);
      }
    }

    /** `get_findings_broad`. */
    static method BroadLoop(rx: Regexes, sections: map<string, string>) returns (r: Result<Entries>)
      ensures r == BroadFrom(rx, sections, FindingLabels, [])
    {
      var acc: Entries := [];
      var i := 0;
      while i < |FindingLabels|
        invariant i <= |FindingLabels|
        invariant BroadFrom(rx, sections, FindingLabels[i..], acc) == BroadFrom(rx, sections, FindingLabels, [])
      {
        var key := FindingLabels[i];
        assert FindingLabels[i..][0] == key && FindingLabels[i..][1..] == FindingLabels[i + 1..];
        if key in sections && sections[key] != [] {
          var segs := Deenumerate(rx, sections[key]);
          if segs.Err? {
            return Err(segs.error);
          }
          var p := ParseSegments(rx.matchers, segs.value);
          if p.Err? {
            return Err(p.error);
          }
          assert SectionFindings(rx, key, sections[key]) == Ok(if p.value.touched then [(key, p.value.findings)] else []);
          if p.value.touched {
            acc := acc + [(key, p.value.findings)];
          } else {
            assert acc + [] == acc;
          }
        }
        i := i + 1;
      }
      return Ok(acc);
    }

    /** `_parse_sections` over one section's items. */
    static method ParseSegments(m: Matchers, segs: seq<string>) returns (r: Result<Parse>)
      ensures r == ParseFrom(m, segs, NoParse)
    {
      var p := NoParse;
      var i := 0;
      while i < |segs|
        invariant i <= |segs|
        invariant ParseFrom(m, segs[i..], p) == ParseFrom(m, segs, NoParse)
      {
        var s := segs[i];
        assert segs[i..][0] == s && segs[i..][1..] == segs[i + 1..];
        if !NotFinding(s) {
          var f := BaseFinding.ParseFinding(Naive, m, s, p.prev);
          if f.Err? {
            return Err(f.error);
          }
          var v := f.value.Value();
          p := Parse(true, AddFinding(p.findings, v, p.prev), Some(Dedup(v.locations)));
        }
        i := i + 1;
      }
      return Ok(p);
    }

    /** `get_findings_precise`. */
    static method PreciseLoop(rx: Regexes, sections: map<string, string>) returns (r: Result<()>)
      ensures r == PreciseFrom(rx, sections, FindingLabels)
    {
      var i := 0;
      while i < |FindingLabels|
        invariant i <= |FindingLabels|
        invariant PreciseFrom(rx, sections, FindingLabels[i..]) == PreciseFrom(rx, sections, FindingLabels)
      {
        var key := FindingLabels[i];
        assert FindingLabels[i..][0] == key && FindingLabels[i..][1..] == FindingLabels[i + 1..];
        if key in sections && sections[key] != [] {
          var segs := Deenumerate(rx, sections[key]);
          if segs.Err? {
            return Err(segs.error);
          }
          var built := BuildSection(rx.matchers, segs.value);
          if built.Err? {
            return Err(built.error);
          }
        }
        i := i + 1;
      }
      return Ok(());
    }

    /** A fresh finding builder run over one section's items; its merged findings are dropped. */
    static method BuildSection(m: Matchers, segs: seq<string>) returns (r: Result<()>)
      ensures r == BuiltAll(m, segs)
    {
      var fb := new FindingBuilder(true);
      var i := 0;
      while i < |segs|
        invariant i <= |segs|
        invariant fresh(fb)
        invariant BuiltAll(m, segs[i..]) == BuiltAll(m, segs)
      {
        assert segs[i..][0] == segs[i] && segs[i..][1..] == segs[i + 1..];
        var x := fb.Fsm(m, segs[i]);
        if x.Err? {
          return Err(x.error);
        }
        i := i + 1;
      }
      var merged := fb.MergedFindings();
      return Ok(());
    }

    /** `get_findings_of_size(min_size)`; after a precise run there are no findings to iterate. */
    method FindingsOfSize(minSize: real) returns (r: Result<seq<FindingValue>>)
      ensures findings.None? ==> r == Err(AttributeError("items"))
      ensures findings.Some? ==> r == Ok(OfSize(findings.value, minSize))
    {
      if findings.None? {
        return Err(AttributeError("items"));
      }
      var es := findings.value;
      var res: seq<FindingValue> := [];
      var i := 0;
      while i < |es|
        invariant i <= |es|
        invariant res == OfSize(es[..i], minSize)
      {
        assert es[..i + 1][..i] == es[..i];
        var fs := es[i].1;
        var j := 0;
        var big: seq<FindingValue> := [];
        while j < |fs|
          invariant j <= |fs|
          invariant big == Large(fs[..j], minSize)
        {
          assert fs[..j + 1][..j] == fs[..j];
          if SizeSet(fs[j].size) && fs[j].size.value >= minSize {
            big := big + [fs[j]];
          }
          j := j + 1;
        }
        assert fs[..j] == fs;
        res := res + big;
        i := i + 1;
      }
      assert es[..i] == es;
      return Ok(res);
    }

    /** The rest of `__init__`, after `_get_sections`. */
    method Finish(version: Version, rx: Regexes) returns (r: Result<()>)
      modifies this
      ensures var m := Finished(text, version, rx, old(title), old(sections));
        (r.Ok? <==> m.Ok?) && (r.Ok? ==> State() == m.value) && (r.Err? ==> r.error == m.error)
    {
      var fs := GetFindings(version, rx);
      if fs.Err? {
        return Err(fs.error);
      }
      r := Describe(fs.value, rx);
    }

    /** `num_polyps`, then `get_indication`, `get_prep` and `get_extent`, given the findings. */
    method Describe(fs: Option<Entries>, rx: Regexes) returns (r: Result<()>)
      modifies this
      ensures var m := Described(text, rx, old(title), old(sections), fs);
        (r.Ok? <==> m.Ok?) && (r.Ok? ==> State() == m.value) && (r.Err? ==> r.error == m.error)
    {
      var ind := GetIndication(rx);
      var p := PrepOf(rx, text);
      if p.Err? {
        return Err(p.error);
      }
      findings, numPolyps, indication, prep, extent := fs, NumPolyps(fs), ind, p.value, ExtentOf(rx, text);
      return Ok(());
    }

    /** `CspyManager(text, version)`: the whole of `__init__`. */
    static method Open(text: string, version: Version, rx: Regexes) returns (r: Result<CspyManager>)
      ensures r.Ok? <==> Opened(text, version, rx).Ok?
      ensures r.Ok? ==> fresh(r.value) && r.value.text == text && r.value.State() == Opened(text, version, rx).value
      ensures r.Err? ==> r.error == Opened(text, version, rx).error
    {
      var c := new CspyManager(text);
      c.GetSections(rx.titleSplit(text));
      var done := c.Finish(version, rx);
      if done.Err? {
        return Err(done.error);
      }
      return Ok(c);
    }
  }
}
