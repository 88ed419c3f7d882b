/**
 * The rule walk of `JarManager.cursory_diagnosis_examination`: each word of a
 * pathology section, in order, is tested against the vocabularies and, with
 * look-behind and look-ahead checks around it, updates the jar being built.
 *
 * The specification is one function per branch of the walk and `Step`, which
 * picks the branch; `Walk` folds `Step` over the words. The methods at the end
 * apply the same branches to a Jar object and are proved against them.
 */
module JarWalk {
  import opened Wrappers
  import opened Text
  import opened Enums
  import opened MaybeCounters
  import opened Utils
  import opened PolypSizes
  import opened PathWords
  import opened PathSections
  import opened Patterns
  import opened CancerTerms
  import opened Jars

  // ---------------------------------------------------------------- vocabularies

  const Polyps: seq<string> := ["polyps", "biopsies", "polyp"]
  const Polyp: seq<string> := ["polyp"]
  const Adenomas: seq<string> := ["adenomas"]
  /** `ADENOMA`, including the abbreviations of early reports. */
  const AdenomaWords: seq<string> := ["adenoma", "adenomatoid", "adenomatous", "adenomat", "adenom"]
  const ColonWords: seq<string> := ["colon", "rectum", "rectal", "cecal", "cecum", "colonic"]
  const Fragments: seq<string> := ["segments", "fragments", "pieces"]
  const Fragment: seq<string> := ["segment", "fragment", "piece"]
  const AdenomaNegation: seq<string> := ["no", "history", "hx", "sessile", "without", "r/o", "negative"]
  const AdenomaNegationWithoutSessile: seq<string> := ["no", "history", "hx", "without", "r/o", "negative"]
  const HistologyNegation: seq<string> := ["no", "or"]
  const HistologyNegationMod: seq<string> := ["evidence", "residual"]
  const NumberNames: seq<string> := ["one", "two", "three", "four", "five", "six", "seven", "eight", "nine"]
  const Digits: seq<string> := ["0", "1", "2", "3", "4", "5", "6", "7", "8", "9"]
  /** `NUMBER`: the number words and the single digits. */
  const NumberWords: seq<string> := NumberNames + Digits
  /** `NUMBER_CONVERT`. */
  const NumberConvert: map<string, nat> := map[
    "one" := 1, "two" := 2, "three" := 3, "four" := 4, "five" := 5, "six" := 6, "seven" := 7,
    "eight" := 8, "nine" := 9, "0" := 0, "1" := 1, "2" := 2, "3" := 3, "4" := 4, "5" := 5,
    "6" := 6, "7" := 7, "8" := 8, "9" := 9
  ]
  const DysplasiaWords: seq<string> := ["dysplasia", "dysplastic"]
  const HighgradeDys: seq<string> := ["highgrade", "grade", "severe"]
  /** `SPECIFYING_LOCATIONS`: locations that may only describe another one ("distal transverse"). */
  const SpecifyingLocations: seq<string> := ["right", "left", "distal", "proximal"]
  const SizeWords: seq<string> := ["dimension", "maximal", "maximum"]
  const CancerWords: seq<string> := [
    "carcinoma", "carcinomas", "adenocarcinoma", "adenocarcinomas", "adenoca", "adenocas",
    "cystadenocarcinoma", "cystadenocarcinomas", "melanoma", "melanomas"
  ]
  const CancerSuffixes: seq<string> := ["sarcoma", "sarcomas", "fibroma", "fibromas"]
  const Neoplasms: seq<string> := ["neoplasm", "neoplasms", "myoepithelioma", "myoepitheliomas", "epithelioma", "epitheliomas"]
  const Tumors: seq<string> := ["tumor", "tumors"]
  const TumorKinds: seq<string> := ["adenomatoid", "adenomatoidal", "carcinoid", "carcinoidal", "cell"]
  /** The joining words skipped between a cancer word and its qualifiers ('in' for 'in situ'). */
  const JoinWords: seq<string> := ["&", "and", "/", "in"]
  const Situ: seq<string> := ["situ", "in-situ"]

  /** Every number word has a value, so a number found in lower case always converts. */
  lemma NumberWordsConvert(k: string)
    ensures Among(k, NumberWords) ==> k in NumberConvert
  {
    AmongIsIn(k, NumberWords);
  }

  // ---------------------------------------------------------------- look-around with the defaults

  /** `section.has_before(terms, window=window)`. */
  function Hb(ws: seq<PathWord>, c: nat, terms: Terms, window: nat): Option<PathWord>
    requires c < |ws|
  {
    LookBehind(ws, c, terms, window, 0, true)
  }

  /** `section.has_after(terms, window=window)`. */
  function Ha(ws: seq<PathWord>, c: nat, terms: Terms, window: nat): Option<PathWord>
    requires c < |ws|
  {
    LookAhead(ws, c, terms, window, 0, true)
  }

  // ---------------------------------------------------------------- negation checks

  /**
   * `_adenoma_negated(section, allow_sessile)`. A string argument such as 'or'
   * is a substring test on the word ('o', 'r' and 'or' all pass it).
   */
  predicate AdenomaNegated(ws: seq<PathWord>, c: nat, allowSessile: bool)
    requires c < |ws|
  {
    var negation := AnyOf(if allowSessile then AdenomaNegationWithoutSessile else AdenomaNegation);
    (Hb(ws, c, negation, 5).Some? && Hb(ws, c, AnyOf(HistologyKeys), 4).None?) ||
    (Hb(ws, c, Within("or"), 3).Some? && Hb(ws, c, negation, 7).Some?) ||
    (Hb(ws, c, AnyOf(["no", "without"]), 5).Some? && Hb(ws, c, AnyOf(["evidence", "hx", "history"]), 4).Some?) ||
    (Hb(ws, c, Within("r"), 5).Some? && Hb(ws, c, Within("o"), 4).Some?) ||
    (Hb(ws, c, Within("negative"), 8).Some? && Hb(ws, c, Within("for"), 7).Some?) ||
    (Hb(ws, c, Within("or"), 3).Some? && Hb(ws, c, Within("negative"), 10).Some? && Hb(ws, c, Within("for"), 9).Some?) ||
    Ha(ws, c, AnyOf(["not", "none", "no"]), 2).Some?
  }

  /** `_histology_negated(section)`. */
  predicate HistologyNegated(ws: seq<PathWord>, c: nat)
    requires c < |ws|
  {
    (Hb(ws, c, AnyOf(HistologyNegation), 1).Some? && Ha(ws, c, AnyOf(AdenomaWords + Adenomas), 3).None?) ||
    (Hb(ws, c, AnyOf(HistologyNegation), 5).Some? && Hb(ws, c, AnyOf(HistologyNegationMod), 4).Some?)
  }

  /** `_is_sessile_serrated(section)`: substring tests on 'sessile' and 'serrated'. */
  predicate SessileSerrated(ws: seq<PathWord>, c: nat)
    requires c < |ws|
  {
    Hb(ws, c, Within("sessile"), 3).Some? && Hb(ws, c, Within("serrated"), 2).Some?
  }

  /** `is_cancer(word, section)`. */
  predicate IsCancer(ws: seq<PathWord>, c: nat)
    requires c < |ws|
  {
    var w := ws[c];
    if IsIn(w, AnyOf(CancerWords)) then true
    else if EndsWithAny(w, CancerSuffixes) then true
    else if IsIn(w, AnyOf(Neoplasms)) then Hb(ws, c, AnyOf(["malignant"]), 3).Some?
    else if IsIn(w, AnyOf(Tumors)) then Hb(ws, c, AnyOf(TumorKinds), 5).Some? || Hb(ws, c, AnyOf(["malignant"]), 3).Some?
    else false
  }

  // ---------------------------------------------------------------- what the walk keeps

  /** Every word is already in lower case, as the tokeniser's `[a-z]+` words are. */
  predicate LowerCase(ws: seq<PathWord>) { forall i :: 0 <= i < |ws| ==> Lower(ws[i].word) == ws[i].word }

  /** The counters a walk builds never go negative, and no more mentions are counted than recorded. */
  predicate Sane(s: JarState) {
    Wf(s) && s.polypCount.count >= 0 && s.adenomaCount.count >= 0 && s.ssaCount >= 0 &&
    s.carcinomas >= 0 && s.carcinomasMaybe >= 0 && s.carcinomas + s.carcinomasMaybe <= |s.carcinomaList|
  }

  /** b extends a: the lists only grow at their ends and the tallies only go up. */
  predicate Grows(a: JarState, b: JarState) {
    a.kinds <= b.kinds && a.locations <= b.locations && a.histologies <= b.histologies &&
    a.polypSize <= b.polypSize && a.carcinomaList <= b.carcinomaList &&
    a.ssaCount <= b.ssaCount && a.carcinomas <= b.carcinomas && a.carcinomasMaybe <= b.carcinomasMaybe &&
    a.adenomaCount.count <= b.adenomaCount.count
  }

  /** What every branch guarantees: from a sane jar it builds a sane extension of it. */
  predicate Extends(a: JarState, b: JarState) { Sane(a) ==> Sane(b) && Grows(a, b) }

  // ---------------------------------------------------------------- the branches

  /** A term of the location table always standardises. */
  lemma KnownLocation(s: JarState, x: string)
    requires IsLocationTerm(Lower(x))
    ensures WithLocations(s, [x]) == Ok(s.(locations := s.locations + Names(LocationOf(Lower(x)))))
  {
    assert [x][..0] == [] && [x][0] == x;
    assert Standardized([], false) == Ok([]);
    assert StandardizeLocation(x) == Ok(LocationOf(Lower(x)));
    assert Standardized([x], false) == Ok([] + Names(LocationOf(Lower(x))));
    assert [] + Names(LocationOf(Lower(x))) == Names(LocationOf(Lower(x)));
  }

  /** The location branch: a specifying word right before another location only describes it. */
  function LocationArm(ws: seq<PathWord>, c: nat, st: JarState): (r: JarState)
    requires c < |ws| && IsIn(ws[c], AnyOf(LocationKeys))
    ensures r == st || r == st.(locations := st.locations + Names(LocationOf(WordLc(ws[c]))))
    ensures Extends(st, r)
  {
    if IsIn(ws[c], AnyOf(SpecifyingLocations)) && Ha(ws, c, AnyOf(LocationKeys), 3).Some? then st
    else
      KnownLocation(st, ws[c].word);
      WithLocations(st, [ws[c].word]).value
  }

  /** `word.matches(DEPTH_PATTERN) and unit in word.word or word.matches(NUMBER_PATTERN) and section.has_after([unit], window=1)`. */
  predicate Measure(ws: seq<PathWord>, c: nat, unit: string)
    requires c < |ws|
  {
    (DepthMatches(ws[c].word) && Contains(ws[c].word, unit)) ||
    (NumberEnd(ws[c].word).Some? && Ha(ws, c, AnyOf([unit]), 1).Some?)
  }

  /** The number a measuring word starts with. */
  function Measured(ws: seq<PathWord>, c: nat, unit: string): real
    requires c < |ws| && Measure(ws, c, unit)
  {
    NumberValue(ws[c].word).value
  }

  /**
   * The centimetre and millimetre branches, with the value in cm: under 10 cm
   * it is a polyp size when a size word follows, otherwise it is the depth.
   */
  function MeasureArm(ws: seq<PathWord>, c: nat, st: JarState, num: real): (r: JarState)
    requires c < |ws|
    ensures num < 10.0 ==> r == st || r == WithPolypSize(st, num, true)
    ensures num >= 10.0 ==> r == WithDepth(st, num)
    ensures Extends(st, r)
  {
    if num < 10.0 then
      if Ha(ws, c, AnyOf(SizeWords), 4).Some? then WithPolypSize(st, num, true) else st
    else WithDepth(st, num)
  }

  /** What a walk carries from word to word: the jar and whether a polyp word has been counted. */
  datatype WalkState = WalkState(jar: JarState, foundPolyp: bool)

  /** The number word found, as `NUMBER_CONVERT[str(num)]` reads it: a missing key is a KeyError. */
  function Convert(num: PathWord): (r: Result<nat>)
    ensures r.Ok? <==> num.word in NumberConvert
    ensures r.Ok? ==> r.value == NumberConvert[num.word]
  {
    if num.word in NumberConvert then Ok(NumberConvert[num.word]) else Err(KeyError(num.word))
  }

  /** The number the polyp branch reads: after the word, unless fragments follow; else before it. */
  function PolypNumber(ws: seq<PathWord>, c: nat): (r: Option<PathWord>)
    requires c < |ws|
    ensures r.Some? ==> IsIn(r.value, AnyOf(NumberWords)) && r.value in ws
  {
    var num := Ha(ws, c, AnyOf(NumberWords), 2);
    if num.None? || Ha(ws, c, AnyOf(Fragments), 4).Some? then Hb(ws, c, AnyOf(NumberWords), 3) else num
  }

  /** The polyps/biopsies branch. */
  function PolypsArm(ws: seq<PathWord>, c: nat, st: WalkState): (r: Result<WalkState>)
    requires c < |ws|
    ensures r.Ok? ==> r.value.jar.adenomaCount == st.jar.adenomaCount && Extends(st.jar, r.value.jar)
    ensures r.Err? ==> r.error.KeyError?
    ensures LowerCase(ws) ==> r.Ok?
  {
    if SessileSerrated(ws, c) then
      Ok(if Hb(ws, c, AnyOf(AdenomaNegationWithoutSessile), 5).None? then st.(jar := WithSessileSerrated(st.jar)) else st)
    else if st.foundPolyp || Hb(ws, c, AnyOf(AdenomaNegation), 5).Some? then Ok(st)
    else PolypsCounted(ws, c, st.jar)
  }

  /** The polyp count the branch sets once it is the first polyp word: a number, 'polyps' alone for several, or nothing. */
  function PolypsCounted(ws: seq<PathWord>, c: nat, jar: JarState): (r: Result<WalkState>)
    requires c < |ws|
    ensures r.Ok? ==> r.value.foundPolyp && r.value.jar.adenomaCount == jar.adenomaCount && Extends(jar, r.value.jar)
    ensures r.Err? ==> r.error.KeyError?
    ensures LowerCase(ws) ==> r.Ok?
  {
    var num := PolypNumber(ws, c);
    if num.Some? && Hb(ws, c, AnyOf(Fragments), 2).None? then
      ConvertsInLowerCase(ws, num.value);
      match Convert(num.value)
        case Err(e) => Err(e)
        case Ok(n) => Ok(WalkState(WithPolypCount(jar, n), true))
    else if !IsIn(ws[c], AnyOf(Polyp)) then Ok(WalkState(WithMorePolyps(jar), true))
    else Ok(WalkState(jar, true))
  }

  /** When the adenomas branch applies: a plural, an adenoma followed by 'polyp(s)', or one in a jar of several polyps. */
  predicate AdenomasApply(ws: seq<PathWord>, c: nat, st: JarState)
    requires c < |ws|
  {
    IsIn(ws[c], AnyOf(Adenomas)) ||
    (IsIn(ws[c], AnyOf(AdenomaWords)) && Ha(ws, c, AnyOf(Polyps), 1).Some?) ||
    (IsIn(ws[c], AnyOf(AdenomaWords)) && Gt(st.polypCount, 1, GreaterThanLimit) == 1)
  }

  /**
   * The number the adenomas branch reads: one after the word, unless it
   * opens a parenthesis-free "n of m fragments" aside; else one before it.
   */
  function AdenomaNumber(ws: seq<PathWord>, c: nat): (r: Option<PathWord>)
    requires c < |ws|
    ensures r.Some? ==> IsIn(r.value, AnyOf(NumberWords)) && r.value in ws
  {
    var after := Ha(ws, c, AnyOf(NumberWords), 2);
    var num :=
      if after.Some? && !StartsWith(after.value.spl, ")") && !EqualsText(after.value, "1") &&
         Ha(ws, c, AnyOf(Fragments), 4).Some?
      then None else after;
    if num.None? then Hb(ws, c, AnyOf(NumberWords), 5) else num
  }

  /** The adenomas branch. */
  function AdenomasArm(ws: seq<PathWord>, c: nat, st: JarState): (r: Result<JarState>)
    requires c < |ws|
    ensures r.Ok? ==> Extends(st, r.value)
    ensures r.Err? ==> r.error.KeyError?
    ensures LowerCase(ws) ==> r.Ok?
    ensures AdenomaNegated(ws, c, true) ==> r == Ok(st)
  {
    if AdenomaNegated(ws, c, true) then Ok(st)
    else if SessileSerrated(ws, c) then Ok(WithSessileSerrated(st))
    else
      var st1 := if Hb(ws, c, AnyOf(Fragment), 4).Some? then WithAdenomaCount(st, 1, false, false) else st;
      AdenomasCounted(ws, c, st, st1)
  }

  /** The count the adenomas branch adds once a fragment word has been accounted for (st1). */
  function AdenomasCounted(ws: seq<PathWord>, c: nat, st: JarState, st1: JarState): (r: Result<JarState>)
    requires c < |ws| && Extends(st, st1) && st1.polypCount == st.polypCount
    ensures r.Ok? ==> Extends(st, r.value)
    ensures r.Err? ==> r.error.KeyError?
    ensures LowerCase(ws) ==> r.Ok?
  {
    var num := AdenomaNumber(ws, c);
    if num.Some? && Hb(ws, c, AnyOf(Fragments), 4).Some? then Ok(WithAdenomaCount(st1, 1, false, true))
    else if num.Some? then
      ConvertsInLowerCase(ws, num.value);
      match Convert(num.value)
        case Err(e) => Err(e)
        case Ok(n) => Ok(WithAdenomaCount(st1, n, false, false))
    else if Ha(ws, c, AnyOf(Polyp), 1).Some? then Ok(WithAdenomaCount(st1, 1, false, false))
    else if IsIn(ws[c], AnyOf(AdenomaWords)) && Gt(st1.polypCount, 1, GreaterThanLimit) == 1 then
      Ok(WithAdenomaCount(st1, 1, false, true))
    else Ok(WithAdenomaCount(st1, 1, true, false))
  }

  /** The single-adenoma branch. */
  function AdenomaArm(ws: seq<PathWord>, c: nat, st: JarState): (r: JarState)
    requires c < |ws|
    ensures Extends(st, r)
    ensures AdenomaNegated(ws, c, true) ==> r == st
  {
    if AdenomaNegated(ws, c, true) then st
    else if SessileSerrated(ws, c) then WithSessileSerrated(st)
    else if Hb(ws, c, AnyOf(Fragments), 4).Some? then WithAdenomaCount(st, 1, false, true)
    else WithAdenomaCount(st, 1, false, false)
  }

  /** The histology branch. */
  function HistologyArm(ws: seq<PathWord>, c: nat, st: JarState): (r: JarState)
    requires c < |ws| && IsIn(ws[c], AnyOf(HistologyKeys))
    ensures Extends(st, r)
    ensures r == st || r == st.(histologies := st.histologies + [HistologyTerms[WordLc(ws[c])]])
  {
    if HistologyNegated(ws, c) then st
    else
      HistologyKeysAreTerms(WordLc(ws[c]));
      WithHistology(st, ws[c].word).value
  }

  /** The dysplasia branch: only high-grade dysplasia is counted, negatively after a negation. */
  function DysplasiaArm(ws: seq<PathWord>, c: nat, st: JarState): (r: JarState)
    requires c < |ws|
    ensures r == st || r == WithDysplasia(st, 0, 1) || r == WithDysplasia(st, 1, 0)
    ensures Extends(st, r)
  {
    if Hb(ws, c, AnyOf(HighgradeDys), 2).Some? then
      if Hb(ws, c, Within("no"), 5).Some? && Hb(ws, c, Within("evidence"), 4).Some? then WithDysplasia(st, 0, 1)
      else if Hb(ws, c, AnyOf(["no", "without", "low", "negative"]), 4).Some? then WithDysplasia(st, 0, 1)
      else WithDysplasia(st, 1, 0)
    else st
  }

  /** A word the qualifier loop steps over. */
  predicate Qualifier(w: PathWord) { IsIn(w, AnyOf(OtherCancerTerms)) || IsIn(w, AnyOf(JoinWords)) }

  /**
   * The loop over the preceding words, nearest first, from position k: the
   * index it ends on and whether it passed 'situ'. It stops at the first word
   * that is neither a qualifier, a joining word nor 'situ'; when it runs out
   * of words it ends on the last index, not one past it.
   */
  function Qualifiers(prev: seq<PathWord>, k: nat): (r: (nat, bool))
    requires k <= |prev|
    ensures r.0 < |prev| || r.0 == 0
    ensures k < |prev| ==> k <= r.0
    decreases |prev| - k
  {
    if k == |prev| then (if prev == [] then 0 else |prev| - 1, false)
    else if Qualifier(prev[k]) then Qualifiers(prev, k + 1)
    else if IsIn(prev[k], AnyOf(Situ)) then (Qualifiers(prev, k + 1).0, true)
    else (k, false)
  }

  /** A word the qualifier loop passes over, either by `continue` or after noting 'situ'. */
  predicate Skipped(w: PathWord) { Qualifier(w) || IsIn(w, AnyOf(Situ)) }

  /** One round of the qualifier loop: step over a qualifier, note a 'situ', or stop. */
  lemma QualifiersAt(prev: seq<PathWord>, k: nat)
    requires k < |prev|
    ensures Qualifier(prev[k]) ==> Qualifiers(prev, k) == Qualifiers(prev, k + 1)
    ensures !Qualifier(prev[k]) && IsIn(prev[k], AnyOf(Situ)) ==> Qualifiers(prev, k) == (Qualifiers(prev, k + 1).0, true)
    ensures !Skipped(prev[k]) ==> Qualifiers(prev, k) == (k, false)
  {
  }

  /** The loop stops at the first word it does not pass over. */
  lemma {:induction false} QualifiersStop(prev: seq<PathWord>, k: nat, m: nat)
    requires k <= m < |prev| && !Skipped(prev[m])
    requires forall j :: k <= j < m ==> Skipped(prev[j])
    ensures Qualifiers(prev, k).0 == m
    decreases m - k
  {
    QualifiersAt(prev, k);
    if k < m {
      QualifiersStop(prev, k + 1, m);
    }
  }

  /** When every earlier word is passed over, the loop ends on the last index, one short of all of them. */
  lemma {:induction false} QualifiersRunOut(prev: seq<PathWord>, k: nat)
    requires k < |prev| && forall j :: k <= j < |prev| ==> Skipped(prev[j])
    ensures Qualifiers(prev, k).0 == |prev| - 1
    decreases |prev| - k
  {
    QualifiersAt(prev, k);
    if k + 1 < |prev| {
      QualifiersRunOut(prev, k + 1);
    }
  }

  /** `' '.join(str(w) for w in words)`. */
  function Spelled(words: seq<PathWord>): seq<string>
  {
    seq(|words|, i requires 0 <= i < |words| => words[i].word)
  }

  /** The carcinoma's certainty, from the cue words before its qualifiers. */
  function CarcinomaStatus(ws: seq<PathWord>, c: nat, i: nat): AssertionStatus
    requires c < |ws|
  {
    if LookBehind(ws, c, AnyOf(SeerMaybe), i + 3, i, true).Some? then Probable
    else if LookBehind(ws, c, AnyOf(NegationTerms), i + 3, i, true).Some? then Negated
    else if LookBehind(ws, c, AnyOf(MaybeTerms), i + 3, i, true).Some? then Possible
    else Definite
  }

  /** The carcinoma branch: the term runs from the qualifiers through the word, and through a following 'situ'. */
  function CarcinomaArm(ws: seq<PathWord>, c: nat, st: JarState): (r: JarState)
    requires c < |ws|
    ensures Extends(st, r)
  {
    var q := Qualifiers(Reversed(ws[..c]), 0);
    var situ := Ha(ws, c, AnyOf(Situ), 2);
    WithCarcinoma(st, CarcinomaTerm(ws, c), CarcinomaStatus(ws, c, q.0), q.1 || situ.Some?)
  }

  /** The mention recorded by the carcinoma branch. */
  function CarcinomaTerm(ws: seq<PathWord>, c: nat): string
    requires c < |ws|
  {
    TermSpan(ws, c, Qualifiers(Reversed(ws[..c]), 0).0, Ha(ws, c, AnyOf(Situ), 2))
  }

  /** The words from i before the cancer word through the word, or through the 'situ' found after it. */
  function TermSpan(ws: seq<PathWord>, c: nat, i: nat, situ: Option<PathWord>): string
    requires i <= c < |ws|
  {
    var end := if situ.Some? then situ.value.index + 1 else c + 1;
    Join(Spelled(Window(ws, c - i, SliceEnd(end, |ws|))), " ")
  }

  /** The carcinoma branch records CarcinomaTerm as the newest mention. */
  lemma CarcinomaArmRecords(ws: seq<PathWord>, c: nat, st: JarState)
    requires c < |ws|
    ensures var r := CarcinomaArm(ws, c, st);
      |r.carcinomaList| == |st.carcinomaList| + 1 && r.carcinomaList[..|st.carcinomaList|] == st.carcinomaList &&
      r.carcinomaList[|st.carcinomaList|].term == CarcinomaTerm(ws, c)
  {
    var r := CarcinomaArm(ws, c, st);
    assert r.carcinomaList[..|st.carcinomaList|] == st.carcinomaList;
  }

  /**
   * The carcinoma branch as written: every call passes `in_situ=`, a keyword
   * `Jar.add_carcinoma(term, status)` does not take, so the call raises
   * TypeError before anything is recorded.
   */
  function CarcinomaArmAsWritten(ws: seq<PathWord>, c: nat, st: JarState): Result<JarState>
    requires c < |ws|
  {
    var q := Qualifiers(Reversed(ws[..c]), 0);
    var situ := Ha(ws, c, AnyOf(Situ), 2);
    AddCarcinomaAsWritten(st, CarcinomaTerm(ws, c), CarcinomaStatus(ws, c, q.0), Some(q.1 || situ.Some?))
  }

  /** Every cancer word fails the call as written, where the intended branch records the mention. */
  lemma CarcinomaCallFails(ws: seq<PathWord>, c: nat, st: JarState)
    requires c < |ws|
    ensures CarcinomaArmAsWritten(ws, c, st) == Err(TypeError("add_carcinoma() got an unexpected keyword argument 'in_situ'"))
    ensures |CarcinomaArm(ws, c, st).carcinomaList| == |st.carcinomaList| + 1
  {
  }

  /**
   * A mention preceded by qualifiers and then another word spans the qualifiers:
   * the m words before the cancer word, and the word itself.
   */
  lemma CarcinomaSpansQualifiers(ws: seq<PathWord>, c: nat, m: nat)
    requires m < c < |ws| && !Skipped(ws[c - 1 - m])
    requires forall j :: c - m <= j < c ==> Skipped(ws[j])
    requires Ha(ws, c, AnyOf(Situ), 2).None?
    ensures CarcinomaTerm(ws, c) == Join(Spelled(ws[c - m..c + 1]), " ")
  {
    QualifiersBefore(ws, c, m);
    CarcinomaTermFrom(ws, c, m);
  }

  /** The qualifier loop over the words before c stops m words back at a word it does not pass over. */
  lemma QualifiersBefore(ws: seq<PathWord>, c: nat, m: nat)
    requires m < c < |ws| && !Skipped(ws[c - 1 - m])
    requires forall j :: c - m <= j < c ==> Skipped(ws[j])
    ensures Qualifiers(Reversed(ws[..c]), 0).0 == m
  {
    var prev := Reversed(ws[..c]);
    forall j | 0 <= j < m
      ensures Skipped(prev[j])
    {
      assert prev[j] == ws[c - 1 - j];
    }
    assert prev[m] == ws[c - 1 - m];
    QualifiersStop(prev, 0, m);
  }

  /** With no 'situ' after it, the mention runs from m words back through the cancer word. */
  lemma CarcinomaTermFrom(ws: seq<PathWord>, c: nat, m: nat)
    requires m <= c < |ws| && Qualifiers(Reversed(ws[..c]), 0).0 == m
    requires Ha(ws, c, AnyOf(Situ), 2).None?
    ensures CarcinomaTerm(ws, c) == Join(Spelled(ws[c - m..c + 1]), " ")
  {
    TermSpanPlain(ws, c, m);
  }

  /** Without a 'situ' after it, the span ends at the cancer word. */
  lemma TermSpanPlain(ws: seq<PathWord>, c: nat, i: nat)
    requires i <= c < |ws|
    ensures TermSpan(ws, c, i, None) == Join(Spelled(ws[c - i..c + 1]), " ")
  {
    assert SliceEnd(c + 1, |ws|) == c + 1;
    assert Window(ws, c - i, c + 1) == ws[c - i..c + 1];
  }

  /**
   * When every word before the cancer word is passed over, the loop's last
   * index leaves out the first word of the section: 'invasive adenocarcinoma'
   * at the start of a section is recorded as 'adenocarcinoma'.
   */
  lemma CarcinomaDropsFirstQualifier(ws: seq<PathWord>, c: nat)
    requires 0 < c < |ws| && forall j :: 0 <= j < c ==> Skipped(ws[j])
    requires Ha(ws, c, AnyOf(Situ), 2).None?
    ensures CarcinomaTerm(ws, c) == Join(Spelled(ws[1..c + 1]), " ")
  {
    var prev := Reversed(ws[..c]);
    forall j | 0 <= j < c
      ensures Skipped(prev[j])
    {
      assert prev[j] == ws[c - 1 - j];
    }
    QualifiersRunOut(prev, 0);
    CarcinomaTermFrom(ws, c, c - 1);
  }

  /** One word of the walk: the first branch whose test passes. */
  function Step(ws: seq<PathWord>, c: nat, st: WalkState): (r: Result<WalkState>)
    requires c < |ws|
    ensures r.Ok? ==> Extends(st.jar, r.value.jar)
    ensures r.Err? ==> r.error.KeyError?
    ensures LowerCase(ws) ==> r.Ok?
  {
    var w := ws[c];
    if IsIn(w, AnyOf(LocationKeys)) then Ok(st.(jar := LocationArm(ws, c, st.jar)))
    else if Measure(ws, c, "cm") then Ok(st.(jar := MeasureArm(ws, c, st.jar, Measured(ws, c, "cm"))))
    else if Measure(ws, c, "mm") then Ok(st.(jar := MeasureArm(ws, c, st.jar, Measured(ws, c, "mm") / 10.0)))
    else if IsIn(w, AnyOf(Polyps)) then PolypsArm(ws, c, st)
    else if AdenomasApply(ws, c, st.jar) then
      match AdenomasArm(ws, c, st.jar)
        case Err(e) => Err(e)
        case Ok(j) => Ok(st.(jar := j))
    else StepOther(ws, c, st)
  }

  /** The branches after the counting ones: words that describe the jar's contents. */
  function StepOther(ws: seq<PathWord>, c: nat, st: WalkState): (r: Result<WalkState>)
    requires c < |ws|
    ensures r.Ok? && Extends(st.jar, r.value.jar) && r.value.foundPolyp == st.foundPolyp
  {
    var w := ws[c];
    if IsIn(w, AnyOf(AdenomaWords)) then Ok(st.(jar := AdenomaArm(ws, c, st.jar)))
    else if IsIn(w, AnyOf(ColonWords)) then Ok(st.(jar := WithKind(st.jar, "colon")))
    else if IsIn(w, AnyOf(HistologyKeys)) then Ok(st.(jar := HistologyArm(ws, c, st.jar)))
    else if IsIn(w, AnyOf(DysplasiaWords)) then Ok(st.(jar := DysplasiaArm(ws, c, st.jar)))
    else if IsIn(w, AnyOf(["ssp", "ssps"])) then Ok(st.(jar := WithSessileSerrated(st.jar)))
    else if IsIn(w, AnyOf(["ssa", "ssas"])) then Ok(st.(jar := WithSessileSerrated(st.jar)))
    else if IsCancer(ws, c) then Ok(st.(jar := CarcinomaArm(ws, c, st.jar)))
    else Ok(st)
  }

  /** The walk over the first n words, from a new jar. */
  function Walk(ws: seq<PathWord>, n: nat): (r: Result<WalkState>)
    requires n <= |ws|
    decreases n, 0
  {
    if n == 0 then Ok(WalkState(NewJar, false)) else Resume(ws, n - 1)
  }

  /** The walk after word c: the first error ends it. */
  function Resume(ws: seq<PathWord>, c: nat): (r: Result<WalkState>)
    requires c < |ws|
    decreases c, 2
  {
    if Walk(ws, c).Err? then Walk(ws, c) else Advance(ws, c)
  }

  /** Word c read from the state the walk has reached before it. */
  function Advance(ws: seq<PathWord>, c: nat): (r: Result<WalkState>)
    requires c < |ws| && Walk(ws, c).Ok?
    decreases c, 1
  {
    Step(ws, c, Walk(ws, c).value)
  }

  /** The jar a whole section describes. */
  function Examined(ws: seq<PathWord>): Result<JarState>
  {
    match Walk(ws, |ws|)
      case Err(e) => Err(e)
      case Ok(st) => Ok(st.jar)
  }

  /** A word of the walk that reads a number reads one of the number words. */
  lemma ConvertsInLowerCase(ws: seq<PathWord>, num: PathWord)
    requires num in ws && IsIn(num, AnyOf(NumberWords))
    ensures LowerCase(ws) ==> Convert(num).Ok?
  {
    NumberWordsConvert(Lower(num.word));
  }

  /** One more word: the walk so far must have succeeded, and the step from it decides the rest. */
  lemma WalkNext(ws: seq<PathWord>, n: nat)
    requires 0 < n <= |ws|
    ensures Walk(ws, n).Ok? ==> Walk(ws, n - 1).Ok? && Extends(Walk(ws, n - 1).value.jar, Walk(ws, n).value.jar)
    ensures Walk(ws, n - 1).Err? ==> Walk(ws, n) == Walk(ws, n - 1)
    ensures Walk(ws, n - 1).Ok? && Walk(ws, n).Err? ==> Walk(ws, n).error.KeyError?
    ensures LowerCase(ws) && Walk(ws, n - 1).Ok? ==> Walk(ws, n).Ok?
  {
    if Walk(ws, n - 1).Ok? {
      WalkStep(ws, n - 1, Walk(ws, n - 1).value);
    } else {
      assert Walk(ws, n) == Resume(ws, n - 1);
    }
  }

  /** How two consecutive results of a walk are related; `lower` says the words are in lower case. */
  predicate Link(a: Result<WalkState>, b: Result<WalkState>, lower: bool) {
    (b.Ok? ==> a.Ok? && Extends(a.value.jar, b.value.jar)) &&
    (a.Err? ==> b == a) &&
    (a.Ok? && b.Err? ==> b.error.KeyError?) &&
    (lower && a.Ok? ==> b.Ok?)
  }

  /** A chain of linked results, from a sane start; every walk is one. */
  predicate Chain(rs: seq<Result<WalkState>>, lower: bool) {
    rs != [] && rs[0].Ok? && Sane(rs[0].value.jar) &&
    forall k :: 0 < k < |rs| ==> Link(rs[k - 1], rs[k], lower)
  }

  /** Along a chain every success is sane, every failure a KeyError, and lower case never fails. */
  lemma {:induction false} ChainKeeps(rs: seq<Result<WalkState>>, lower: bool)
    requires Chain(rs, lower)
    ensures forall k :: 0 <= k < |rs| && rs[k].Ok? ==> Sane(rs[k].value.jar)
    ensures forall k :: 0 <= k < |rs| && rs[k].Err? ==> rs[k].error.KeyError?
    ensures lower ==> forall k :: 0 <= k < |rs| ==> rs[k].Ok?
  {
    if |rs| > 1 {
      var last := |rs| - 1;
      var front := rs[..last];
      assert forall k :: 0 <= k < |front| ==> front[k] == rs[k];
      ChainKeeps(front, lower);
      assert Link(rs[last - 1], rs[last], lower);
      assert front[last - 1] == rs[last - 1];
    }
  }

  /** Along a chain, a success extends every earlier point. */
  lemma {:induction false} ChainGrows(rs: seq<Result<WalkState>>, lower: bool, m: nat, n: nat)
    requires Chain(rs, lower) && m <= n < |rs| && rs[n].Ok?
    ensures rs[m].Ok? && Grows(rs[m].value.jar, rs[n].value.jar)
    decreases n - m
  {
    ChainKeeps(rs, lower);
    if m < n {
      assert Link(rs[n - 1], rs[n], lower);
      ChainGrows(rs, lower, m, n - 1);
      GrowsTransitive(rs[m].value.jar, rs[n - 1].value.jar, rs[n].value.jar);
    }
  }

  lemma GrowsTransitive(a: JarState, b: JarState, c: JarState)
    requires Grows(a, b) && Grows(b, c)
    ensures Grows(a, c)
  {
  }

  /** The results of the walk after 0, 1, ..., |ws| words. */
  function Trace(ws: seq<PathWord>): (r: seq<Result<WalkState>>)
    ensures |r| == |ws| + 1 && forall k :: 0 <= k <= |ws| ==> r[k] == Walk(ws, k)
  {
    seq(|ws| + 1, k requires 0 <= k <= |ws| => Walk(ws, k))
  }

  /** The walk's results form a chain. */
  lemma TraceIsChain(ws: seq<PathWord>)
    ensures Chain(Trace(ws), LowerCase(ws))
  {
    var rs := Trace(ws);
    forall k | 0 < k < |rs|
      ensures Link(rs[k - 1], rs[k], LowerCase(ws))
    {
      WalkNext(ws, k);
    }
    NewJarSane();
  }

  lemma NewJarSane()
    ensures Sane(NewJar)
  {
    NewJarIsEmpty();
  }

  /** The walk over lower-case words never fails, any failure is a KeyError, and every jar it builds is sane. */
  lemma WalkKeeps(ws: seq<PathWord>, n: nat)
    requires n <= |ws|
    ensures Walk(ws, n).Err? ==> Walk(ws, n).error.KeyError?
    ensures LowerCase(ws) ==> Walk(ws, n).Ok?
    ensures Walk(ws, n).Ok? ==> Sane(Walk(ws, n).value.jar)
  {
    TraceIsChain(ws);
    ChainKeeps(Trace(ws), LowerCase(ws));
    assert Trace(ws)[n] == Walk(ws, n);
  }

  /** A whole section: a failure is a KeyError and the jar built is sane. */
  lemma ExaminedKeeps(ws: seq<PathWord>)
    ensures Examined(ws).Err? ==> Examined(ws).error.KeyError?
    ensures Examined(ws).Ok? ==> Sane(Examined(ws).value)
    ensures LowerCase(ws) ==> Examined(ws).Ok?
  {
    WalkKeeps(ws, |ws|);
  }

  /** A later point of the walk extends every earlier one. */
  lemma WalkGrows(ws: seq<PathWord>, m: nat, n: nat)
    requires m <= n <= |ws| && Walk(ws, n).Ok?
    ensures Walk(ws, m).Ok? && Grows(Walk(ws, m).value.jar, Walk(ws, n).value.jar)
  {
    TraceIsChain(ws);
    var rs := Trace(ws);
    assert rs[n] == Walk(ws, n) && rs[m] == Walk(ws, m);
    ChainGrows(rs, LowerCase(ws), m, n);
  }

  /** Along a chain, a failure is final. */
  lemma {:induction false} ChainFails(rs: seq<Result<WalkState>>, lower: bool, m: nat, n: nat)
    requires Chain(rs, lower) && m <= n < |rs| && rs[m].Err?
    ensures rs[n] == rs[m]
    decreases n - m
  {
    if m < n {
      ChainFails(rs, lower, m, n - 1);
      assert Link(rs[n - 1], rs[n], lower);
    }
  }

  /** Once the walk fails, it fails with the same error to the end. */
  lemma WalkFails(ws: seq<PathWord>, m: nat, n: nat)
    requires m <= n <= |ws| && Walk(ws, m).Err?
    ensures Walk(ws, n) == Walk(ws, m)
  {
    TraceIsChain(ws);
    var rs := Trace(ws);
    assert rs[n] == Walk(ws, n) && rs[m] == Walk(ws, m);
    ChainFails(rs, LowerCase(ws), m, n);
  }

  /** After a successful prefix, the next word is one Step. */
  lemma WalkStep(ws: seq<PathWord>, n: nat, st: WalkState)
    requires n < |ws| && Walk(ws, n) == Ok(st)
    ensures Walk(ws, n + 1) == Step(ws, n, st)
  {
    assert Walk(ws, n + 1) == Resume(ws, n) == Advance(ws, n);
  }

  /** A word whose lower case is in an all-letter vocabulary is no number. */
  lemma LetterWordIsNoMeasure(ws: seq<PathWord>, c: nat, unit: string)
    requires c < |ws| && WordLc(ws[c]) != [] && IsLower(WordLc(ws[c])[0])
    ensures !Measure(ws, c, unit)
  {
    assert ws[c].word != [] && !IsDigit(ws[c].word[0]);
  }

  lemma AmongSplit(k: string, a: seq<string>, b: seq<string>)
    ensures Among(k, a + b) <==> Among(k, a) || Among(k, b)
  {
    AmongIsIn(k, a + b);
    AmongIsIn(k, a);
    AmongIsIn(k, b);
  }

  /** No adenoma word is a location or a polyp word, and each starts with 'a'. */
  lemma AdenomaWordIsNoLocation(k: string)
    requires Among(k, AdenomaWords + Adenomas)
    ensures !Among(k, LocationKeys) && !Among(k, Polyps) && k != [] && k[0] == 'a'
  {
    AmongIsIn(k, AdenomaWords + Adenomas);
    assert StartsAd(k);
    NoAdColon();
    NoAdSides();
    NoAdOther();
    AmongSplit(k, LocationKeysColon + LocationKeysSides, LocationKeysOther);
    AmongSplit(k, LocationKeysColon, LocationKeysSides);
    NotInChunk(k, LocationKeysColon);
    NotInChunk(k, LocationKeysSides);
    NotInChunk(k, LocationKeysOther);
    NotInChunk(k, Polyps);
  }

  predicate StartsAd(x: string) { |x| >= 2 && x[0] == 'a' && x[1] == 'd' }

  /** No word of these vocabularies starts with "ad". */
  predicate NoAd(chunk: seq<string>) { forall i :: 0 <= i < |chunk| ==> !StartsAd(chunk[i]) }

  lemma NoAdColon()
    ensures NoAd(LocationKeysColon)
  {
  }

  lemma NoAdSides()
    ensures NoAd(LocationKeysSides)
  {
  }

  lemma NoAdOther()
    ensures NoAd(LocationKeysOther) && NoAd(Polyps)
  {
  }

  lemma NotInChunk(k: string, chunk: seq<string>)
    requires StartsAd(k) && NoAd(chunk)
    ensures !Among(k, chunk)
  {
    AmongIsIn(k, chunk);
  }

  /** An adenoma word followed within two words by 'not', 'none' or 'no' leaves the jar as it was. */
  lemma NegatedAdenomaUnchanged(ws: seq<PathWord>, c: nat, st: WalkState)
    requires c < |ws| && IsIn(ws[c], AnyOf(AdenomaWords + Adenomas))
    requires Ha(ws, c, AnyOf(["not", "none", "no"]), 2).Some?
    ensures Step(ws, c, st) == Ok(st)
  {
    AdenomaWordIsNoLocation(WordLc(ws[c]));
    LetterWordIsNoMeasure(ws, c, "cm");
    LetterWordIsNoMeasure(ws, c, "mm");
    assert AdenomaNegated(ws, c, true);
    if AdenomasApply(ws, c, st.jar) {
      assert Step(ws, c, st) == (match AdenomasArm(ws, c, st.jar) case Err(e) => Err(e) case Ok(j) => Ok(st.(jar := j)));
    } else {
      AmongIsIn(WordLc(ws[c]), AdenomaWords + Adenomas);
      AmongIsIn(WordLc(ws[c]), AdenomaWords);
      AmongIsIn(WordLc(ws[c]), Adenomas);
    }
  }

  // ---------------------------------------------------------------- the walk on objects

  /** The loop over `iter_prev_words()` in the carcinoma branch. */
  method QualifierScan(prev: seq<PathWord>) returns (i: nat, inSitu: bool)
    ensures (i, inSitu) == Qualifiers(prev, 0)
  {
    i, inSitu := 0, false;
    var k := 0;
    while k < |prev|
      invariant k <= |prev|
      invariant Qualifiers(prev, 0) == (Qualifiers(prev, k).0, Qualifiers(prev, k).1 || inSitu)
      invariant if k == 0 then i == 0 else i == k - 1
    {
      i := k;
      var w := prev[k];
      QualifiersAt(prev, k);
      if Qualifier(w) {
      } else if IsIn(w, AnyOf(Situ)) {
        inSitu := true;
      } else {
        break;
      }
      k := k + 1;
    }
  }

  method ExamineLocation(section: PathSection, jar: Jar)
    requires section.OnWord() && IsIn(section.section[section.curr.value], AnyOf(LocationKeys))
    modifies jar
    ensures jar.State() == LocationArm(section.section, section.curr.value, old(jar.State()))
  {
    var word := section.section[section.curr.value];
    var more := section.HasAfter(AnyOf(LocationKeys), 3, 0, true);
    if IsIn(word, AnyOf(SpecifyingLocations)) && more.Some? {
      return;
    }
    KnownLocation(jar.State(), word.word);
    var ok := jar.AddLocation(word.word);
  }

  method ExamineMeasure(section: PathSection, jar: Jar, num: real)
    requires section.OnWord()
    modifies jar
    ensures jar.State() == MeasureArm(section.section, section.curr.value, old(jar.State()), num)
  {
    if num < 10.0 {
      var dims := section.HasAfter(AnyOf(SizeWords), 4, 0, true);
      if dims.Some? {
        jar.SetPolypSize(num, true);
      }
    } else {
      jar.SetDepth(num);
    }
  }

  /** `PolypNumber` on the section object. */
  method FindPolypNumber(section: PathSection) returns (num: Option<PathWord>)
    requires section.OnWord()
    ensures num == PolypNumber(section.section, section.curr.value)
  {
    num := section.HasAfter(AnyOf(NumberWords), 2, 0, true);
    var frags := section.HasAfter(AnyOf(Fragments), 4, 0, true);
    if num.None? || frags.Some? {
      num := section.HasBefore(AnyOf(NumberWords), 3, 0, true);
    }
  }

  method ExaminePolyps(section: PathSection, jar: Jar, found: bool) returns (r: Result<bool>)
    requires section.OnWord()
    modifies jar
    ensures r.Ok? ==> PolypsArm(section.section, section.curr.value, WalkState(old(jar.State()), found)) == Ok(WalkState(jar.State(), r.value))
    ensures r.Err? ==> PolypsArm(section.section, section.curr.value, WalkState(old(jar.State()), found)) == Err(r.error)
  {
    var ws, c := section.section, section.curr.value;
    ghost var st := WalkState(jar.State(), found);
    if SessileSerrated(ws, c) {
      var neg := section.HasBefore(AnyOf(AdenomaNegationWithoutSessile), 5, 0, true);
      if neg.None? {
        jar.AddSsp();
      }
      return Ok(found);
    }
    var neg := section.HasBefore(AnyOf(AdenomaNegation), 5, 0, true);
    if found || neg.Some? {
      return Ok(found);
    }
    r := CountPolyps(section, jar);
  }

  /** `PolypsCounted` on the section object and the jar. */
  method CountPolyps(section: PathSection, jar: Jar) returns (r: Result<bool>)
    requires section.OnWord()
    modifies jar
    ensures r.Ok? ==> PolypsCounted(section.section, section.curr.value, old(jar.State())) == Ok(WalkState(jar.State(), r.value))
    ensures r.Err? ==> PolypsCounted(section.section, section.curr.value, old(jar.State())) == Err(r.error)
  {
    var ws, c := section.section, section.curr.value;
    ghost var st := jar.State();
    var num := FindPolypNumber(section);
    var near := section.HasBefore(AnyOf(Fragments), 2, 0, true);
    assert near == Hb(ws, c, AnyOf(Fragments), 2);
    if num.Some? && near.None? {
      var n := Convert(num.value);
      if n.Err? {
        assert PolypsCounted(ws, c, st) == Err(n.error);
        return Err(n.error);
      }
      assert PolypsCounted(ws, c, st) == Ok(WalkState(WithPolypCount(st, n.value), true));
      jar.SetPolypCount(n.value);
    } else if !IsIn(ws[c], AnyOf(Polyp)) {
      assert PolypsCounted(ws, c, st) == Ok(WalkState(WithMorePolyps(st), true));
      jar.MarkMorePolyps();
    } else {
      assert PolypsCounted(ws, c, st) == Ok(WalkState(st, true));
    }
    return Ok(true);
  }

  /** `AdenomaNumber` on the section object. */
  method FindAdenomaNumber(section: PathSection) returns (num: Option<PathWord>)
    requires section.OnWord()
    ensures num == AdenomaNumber(section.section, section.curr.value)
  {
    num := section.HasAfter(AnyOf(NumberWords), 2, 0, true);
    if num.Some? && !StartsWith(num.value.spl, ")") && !EqualsText(num.value, "1") {
      var frags := section.HasAfter(AnyOf(Fragments), 4, 0, true);
      if frags.Some? {
        num := None;
      }
    }
    if num.None? {
      num := section.HasBefore(AnyOf(NumberWords), 5, 0, true);
    }
  }

  /** The counting that ends the adenomas branch, from the number and fragments already looked up. */
  method CountAdenomas(section: PathSection, jar: Jar, ghost st: JarState, num: Option<PathWord>, hasFrags: Option<PathWord>, onePolyp: Option<PathWord>)
      returns (r: Result<()>)
    requires section.OnWord()
    requires Extends(st, jar.State()) && jar.State().polypCount == st.polypCount
    requires num == AdenomaNumber(section.section, section.curr.value)
    requires hasFrags == Hb(section.section, section.curr.value, AnyOf(Fragments), 4)
    requires onePolyp == Ha(section.section, section.curr.value, AnyOf(Polyp), 1)
    modifies jar
    ensures r.Ok? ==> AdenomasCounted(section.section, section.curr.value, st, old(jar.State())) == Ok(jar.State())
    ensures r.Err? ==> AdenomasCounted(section.section, section.curr.value, st, old(jar.State())) == Err(r.error)
  {
    var ws, c := section.section, section.curr.value;
    if num.Some? && hasFrags.Some? {
      jar.AddAdenomaCount(1, false, true);
    } else if num.Some? {
      var n := Convert(num.value);
      if n.Err? {
        return Err(n.error);
      }
      jar.AddAdenomaCount(n.value, false, false);
    } else if onePolyp.Some? {
      jar.AddAdenomaCount(1, false, false);
    } else if IsIn(ws[c], AnyOf(AdenomaWords)) && Gt(jar.polypCount, 1, GreaterThanLimit) == 1 {
      jar.AddAdenomaCount(1, false, true);
    } else {
      jar.AddAdenomaCount(1, true, false);
    }
    return Ok(());
  }

  method ExamineAdenomas(section: PathSection, jar: Jar) returns (r: Result<()>)
    requires section.OnWord()
    modifies jar
    ensures r.Ok? ==> AdenomasArm(section.section, section.curr.value, old(jar.State())) == Ok(jar.State())
    ensures r.Err? ==> AdenomasArm(section.section, section.curr.value, old(jar.State())) == Err(r.error)
  {
    var ws, c := section.section, section.curr.value;
    if AdenomaNegated(ws, c, true) {
      return Ok(());
    }
    if SessileSerrated(ws, c) {
      jar.AddSsa();
      return Ok(());
    }
    ghost var st := jar.State();
    var num := FindAdenomaNumber(section);
    var hasFrags := section.HasBefore(AnyOf(Fragments), 4, 0, true);
    var onePolyp := section.HasAfter(AnyOf(Polyp), 1, 0, true);
    var fragment := section.HasBefore(AnyOf(Fragment), 4, 0, true);
    if fragment.Some? {
      jar.AddAdenomaCount(1, false, false);
    }
    r := CountAdenomas(section, jar, st, num, hasFrags, onePolyp);
  }

  method ExamineAdenoma(section: PathSection, jar: Jar)
    requires section.OnWord()
    modifies jar
    ensures jar.State() == AdenomaArm(section.section, section.curr.value, old(jar.State()))
  {
    var ws, c := section.section, section.curr.value;
    if !AdenomaNegated(ws, c, true) {
      var frags := section.HasBefore(AnyOf(Fragments), 4, 0, true);
      if SessileSerrated(ws, c) {
        jar.AddSsa();
      } else if frags.Some? {
        jar.AddAdenomaCount(1, false, true);
      } else {
        jar.AddAdenomaCount(1, false, false);
      }
    }
  }

  method ExamineHistology(section: PathSection, jar: Jar)
    requires section.OnWord() && IsIn(section.section[section.curr.value], AnyOf(HistologyKeys))
    modifies jar
    ensures jar.State() == HistologyArm(section.section, section.curr.value, old(jar.State()))
  {
    var ws, c := section.section, section.curr.value;
    if HistologyNegated(ws, c) {
      return;
    }
    HistologyKeysAreTerms(WordLc(ws[c]));
    var ok := jar.AddHistology(ws[c].word);
  }

  method ExamineDysplasia(section: PathSection, jar: Jar)
    requires section.OnWord()
    modifies jar
    ensures jar.State() == DysplasiaArm(section.section, section.curr.value, old(jar.State()))
  {
    var ws, c := section.section, section.curr.value;
    var high := section.HasBefore(AnyOf(HighgradeDys), 2, 0, true);
    if high.Some? {
      var no := section.HasBefore(Within("no"), 5, 0, true);
      var evidence := section.HasBefore(Within("evidence"), 4, 0, true);
      var negative := section.HasBefore(AnyOf(["no", "without", "low", "negative"]), 4, 0, true);
      assert no == Hb(ws, c, Within("no"), 5) && evidence == Hb(ws, c, Within("evidence"), 4);
      assert negative == Hb(ws, c, AnyOf(["no", "without", "low", "negative"]), 4);
      if (no.Some? && evidence.Some?) || negative.Some? {
        jar.AddDysplasia(0, 1);
      } else {
        jar.AddDysplasia(1, 0);
      }
    }
  }

  /** The status the carcinoma branch gives, looking past the i qualifiers. */
  method FindCarcinomaStatus(section: PathSection, i: nat) returns (status: AssertionStatus)
    requires section.OnWord()
    ensures status == CarcinomaStatus(section.section, section.curr.value, i)
  {
    status := Definite;
    var probable := section.HasBefore(AnyOf(SeerMaybe), i + 3, i, true);
    var negated := section.HasBefore(AnyOf(NegationTerms), i + 3, i, true);
    var possible := section.HasBefore(AnyOf(MaybeTerms), i + 3, i, true);
    if probable.Some? {
      status := Probable;
    } else if negated.Some? {
      status := Negated;
    } else if possible.Some? {
      status := Possible;
    }
  }

  /** The words the carcinoma branch records, and whether a situ word follows. */
  method FindCarcinomaTerm(section: PathSection) returns (carcinoma: string, i: nat, inSitu: bool)
    requires section.OnWord()
    ensures carcinoma == CarcinomaTerm(section.section, section.curr.value)
    ensures var q := Qualifiers(Reversed(section.section[..section.curr.value]), 0);
            i == q.0 && inSitu == (q.1 || Ha(section.section, section.curr.value, AnyOf(Situ), 2).Some?)
  {
    var ws, c := section.section, section.curr.value;
    var prev := section.PrevWords();
    i, inSitu := QualifierScan(prev);
    var w := section.HasAfter(AnyOf(Situ), 2, 0, true);
    if w.Some? {
      inSitu := true;
    }
    carcinoma := TermSpan(ws, c, i, w);
  }

  method ExamineCarcinoma(section: PathSection, jar: Jar)
    requires section.OnWord()
    modifies jar
    ensures jar.State() == CarcinomaArm(section.section, section.curr.value, old(jar.State()))
  {
    var carcinoma, i, inSitu := FindCarcinomaTerm(section);
    var status := FindCarcinomaStatus(section, i);
    jar.AddCarcinoma(carcinoma, status, inSitu);
  }

  /** The body of the loop over the section's words: the branch of Step, applied to the jar. */
  method ExamineWord(section: PathSection, jar: Jar, found: bool) returns (r: Result<bool>)
    requires section.OnWord()
    modifies jar
    ensures r.Ok? ==> Step(section.section, section.curr.value, WalkState(old(jar.State()), found)) == Ok(WalkState(jar.State(), r.value))
    ensures r.Err? ==> Step(section.section, section.curr.value, WalkState(old(jar.State()), found)) == Err(r.error)
  {
    var ws, c := section.section, section.curr.value;
    var w := ws[c];
    if IsIn(w, AnyOf(LocationKeys)) {
      ExamineLocation(section, jar);
    } else if Measure(ws, c, "cm") {
      ExamineMeasure(section, jar, Measured(ws, c, "cm"));
    } else if Measure(ws, c, "mm") {
      ExamineMeasure(section, jar, Measured(ws, c, "mm") / 10.0);
    } else if IsIn(w, AnyOf(Polyps)) {
      r := ExaminePolyps(section, jar, found);
      return;
    } else if AdenomasApply(ws, c, jar.State()) {
      var res := ExamineAdenomas(section, jar);
      if res.Err? {
        return Err(res.error);
      }
    } else {
      ExamineOther(section, jar, found);
    }
    return Ok(found);
  }

  /** The branches of StepOther, applied to the jar. */
  method ExamineOther(section: PathSection, jar: Jar, found: bool)
    requires section.OnWord()
    modifies jar
    ensures StepOther(section.section, section.curr.value, WalkState(old(jar.State()), found)) == Ok(WalkState(jar.State(), found))
  {
    var ws, c := section.section, section.curr.value;
    ghost var st := WalkState(jar.State(), found);
    var w := ws[c];
    if IsIn(w, AnyOf(AdenomaWords)) {
      assert StepOther(ws, c, st) == Ok(st.(jar := AdenomaArm(ws, c, st.jar)));
      ExamineAdenoma(section, jar);
    } else if IsIn(w, AnyOf(ColonWords)) {
      assert StepOther(ws, c, st) == Ok(st.(jar := WithKind(st.jar, "colon")));
      jar.AddKind("colon");
    } else if IsIn(w, AnyOf(HistologyKeys)) {
      assert StepOther(ws, c, st) == Ok(st.(jar := HistologyArm(ws, c, st.jar)));
      ExamineHistology(section, jar);
    } else if IsIn(w, AnyOf(DysplasiaWords)) {
      assert StepOther(ws, c, st) == Ok(st.(jar := DysplasiaArm(ws, c, st.jar)));
      ExamineDysplasia(section, jar);
    } else if IsIn(w, AnyOf(["ssp", "ssps"])) {
      assert StepOther(ws, c, st) == Ok(st.(jar := WithSessileSerrated(st.jar)));
      jar.AddSsp();
    } else if IsIn(w, AnyOf(["ssa", "ssas"])) {
      assert StepOther(ws, c, st) == Ok(st.(jar := WithSessileSerrated(st.jar)));
      jar.AddSsa();
    } else if IsCancer(ws, c) {
      assert StepOther(ws, c, st) == Ok(st.(jar := CarcinomaArm(ws, c, st.jar)));
      ExamineCarcinoma(section, jar);
    } else {
      assert StepOther(ws, c, st) == Ok(st);
    }
  }

  /** One turn of the walk's loop: the word under the cursor extends the walk by one step. */
  method ExamineNext(section: PathSection, jar: Jar, found: bool) returns (r: Result<bool>)
    requires section.OnWord()
    requires Walk(section.section, section.curr.value) == Ok(WalkState(jar.State(), found))
    modifies jar
    ensures r.Ok? ==> Walk(section.section, section.curr.value + 1) == Ok(WalkState(jar.State(), r.value))
    ensures r.Err? ==> Walk(section.section, section.curr.value + 1) == Err(r.error)
  {
    WalkStep(section.section, section.curr.value, WalkState(jar.State(), found));
    r := ExamineWord(section, jar, found);
  }

  /** The loop of `cursory_diagnosis_examination`: a new jar, walked over every word of the section. */
  method ExamineWords(section: PathSection) returns (r: Result<Jar>)
    modifies section
    ensures section.section == old(section.section)
    ensures r.Ok? ==> fresh(r.value) && Examined(section.section) == Ok(r.value.State())
    ensures r.Err? ==> Examined(section.section) == Err(r.error)
  {
    var jar := new Jar();
    ghost var ws := section.section;
    var found := false;
    var i := 0;
    while i < |section.section|
      invariant section.section == ws
      invariant 0 <= i <= |ws|
      invariant Walk(ws, i) == Ok(WalkState(jar.State(), found))
    {
      section.MoveTo(i);
      var res := ExamineNext(section, jar, found);
      if res.Err? {
        WalkFails(ws, i + 1, |ws|);
        return Err(res.error);
      }
      found := res.value;
      i := i + 1;
    }
    return Ok(jar);
  }

  /** `cursory_diagnosis_examination` up to adding the jar: the section's words examined from a new jar. */
  method ExamineSection(text: string, spans: seq<Span>) returns (r: Result<Jar>)
    requires SpansOk(text, spans)
    ensures r.Ok? ==> fresh(r.value) && Examined(Tokenize(text, spans)) == Ok(r.value.State())
    ensures r.Err? ==> Examined(Tokenize(text, spans)) == Err(r.error)
  {
    var section := new PathSection(text, spans);
    r := ExamineWords(section);
  }
}
