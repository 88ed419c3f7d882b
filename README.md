# precise_nlp core, modelled in Dafny

precise_nlp reads free-text pathology reports and colonoscopy reports. From them it computes the
variables used to score colonoscopy quality: how many adenomas were removed and where, whether any
was large, villous or dysplastic, and whether carcinoma was found. It also reads the endoscopist's
polyp findings, the indication, the extent and the bowel preparation. This project models the core
of that pipeline. The model keeps the program's own entities:
- the counters with three kinds of certainty (`MaybeCounter`, `PolarityCounter`);
- the pathology `Jar`, filled word by word by the `JarManager` rules;
- the `PathManager`, which cuts a report into specimens;
- the colonoscopy `Finding`, `BaseFinding` and `FindingBuilder` and their `CspyManager`;
- the decisions in `algorithm.py`;
- the OCR clean-up of `doc_parser.py`;
- the result bookkeeping of `process.py`.
Every operation is specified and related to a partner: an independent definition, an inverse, an
invariant it keeps or a bound it meets.

Layout (one module per file; files follow the source's modules):
- `wrappers.dfy`: Option, Result and the Python exceptions the code raises.
- `text.dfy`: ASCII string helpers.
- `enums.dfy`: the enumerations.
- `utils.dfy`: depth-to-location bands and standard terminology.
- `maybe_counter.dfy`, `polarity_counter.dfy`: the counting algebras.
- `polyp_size.dfy`: `PolypSize`.
- `path_word.dfy`, `path_section.dfy`: tokens of a pathology section and the cursor over them.
- `patterns.dfy`: the numeric patterns.
- `terms.dfy`: the carcinoma vocabularies.
- `jar.dfy`: `Jar` as a class over a `JarState` snapshot, and the pure update functions.
- `jar_walk.dfy`: the rule walk of `cursory_diagnosis_examination`.
- `jar_manager.dfy`: `JarManager`'s postprocessing and counts.
- `path_manager.dfy`: specimen ranges, report splitting and the lazy `PathManager`.
- `finding.dfy`, `finding_builder.dfy`: the `Finding` dataclass and `FindingBuilder`.
- `base_finding.dfy`: `BaseFinding` with its naive and single variants.
- `finding_patterns.dfy`: the pattern table of findings.
- `cspy.dfy`: `CspyManager`.
- `algorithm.dfy`: the algorithm-level decisions.
- `doc_parser.dfy`: `remove_ocr_junk` and `parse_file`.
- `process.dfy`: `split_maybe_counters`, `clean_truth`, `add_identifier` and `DataCounter`.

How the code is kept:
- Where the Python object updates its fields, the model is a class with `modifies` clauses. Its
  methods are proved against specification functions on the old state.
- Where the code computes values, the model is functions and lemmas.
- Loops stay loops with their invariants.
- Regular expressions are not compiled or run. Each is a parameter: a function from the text to its
  matches, or the matches are given. The lemmas state what holds for any such matcher.
- Where the code raises, the model returns `Err` with the Python exception.

## Model

| member | source | states |
|---|---|---|
| MaybeCounters.Make | src/precise_nlp/extract/maybe_counter.py:7-12 | construction fails with ValueError exactly when both "at least" and "greater than" are set, and otherwise keeps the three fields |
| MaybeCounters.Added | src/precise_nlp/extract/maybe_counter.py:14-25 | `add`: a negative amount changes nothing; otherwise the count grows by the amount plus one per "greater than" side, "greater than" is cleared, and "at least" is set when either side was qualified |
| MaybeCounters.PlusInt | src/precise_nlp/extract/maybe_counter.py:33-36 | adding an int moves the count and keeps both qualifiers |
| MaybeCounters.Plus | src/precise_nlp/extract/maybe_counter.py:39-46 | adding two counters sums the counts plus one per "greater than" side; the result is never "greater than" and is "at least" when either side was qualified |
| MaybeCounters.MinusInt | src/precise_nlp/extract/maybe_counter.py:49-52 | subtracting an int moves the count and keeps both qualifiers |
| MaybeCounters.Minus | src/precise_nlp/extract/maybe_counter.py:55-66 | subtracting counters: a one-sided "greater than" moves the count one step towards the qualified side and cancels an "at least" on the other side |
| MaybeCounters.Gt | src/precise_nlp/extract/maybe_counter.py:71-85 | `gt(n)` is 1 exactly when the count is above n (or equal with "greater than"), 0 exactly when equal with "at least" only or below n but within the limit window, otherwise -1 |
| MaybeCounters.Eq | src/precise_nlp/extract/maybe_counter.py:87-108 | `eq(n)` is 1 exactly for an unqualified counter equal to n, 0 for "at least n" or for n inside the limit window, otherwise -1 |
| MaybeCounters.AddedIsPlus | src/precise_nlp/extract/maybe_counter.py:14-46 | the in-place `add` with non-negative arguments equals `+` with the counter those arguments describe |
| MaybeCounters.PlusCommutes | src/precise_nlp/extract/maybe_counter.py:39-46 | `a + b == b + a` |
| MaybeCounters.PlusAssociates | src/precise_nlp/extract/maybe_counter.py:39-46 | `(a + b) + c == a + (b + c)` |
| MaybeCounters.PlusExact | src/precise_nlp/extract/maybe_counter.py:39-46 | unqualified counters add as integers |
| MaybeCounters.MinusUndoesPlus | src/precise_nlp/extract/maybe_counter.py:39-66 | subtracting an unqualified counter undoes adding it (up to folding "greater than" into the count) |
| MaybeCounters.GtMaybeIffEqMaybe | src/precise_nlp/extract/maybe_counter.py:71-108 | `gt(n)` answers "maybe" exactly when `eq(n)` does |
| MaybeCounters.GtMonotone | src/precise_nlp/extract/maybe_counter.py:71-85 | a certain `gt(n)` stays certain for every smaller n |
| MaybeCounters.TruthyIffGtZero | src/precise_nlp/extract/maybe_counter.py:68-85 | for a non-negative count, `bool(c)` is `gt(0) == 1` |
| MaybeCounters.PlusExample | src/precise_nlp/extract/maybe_counter.py:39-46 | `>2 + >3` is `>=7`, and `>=0 + >=1` is `>=1` |
| PolarityCounters.Added | src/precise_nlp/extract/polarity_counter.py:13-15 | `add` raises each count by its argument |
| PolarityCounters.Plus | src/precise_nlp/extract/polarity_counter.py:17-23 | `a + b` adds the counts field by field |
| PolarityCounters.EqualIsIdentity | src/precise_nlp/extract/polarity_counter.py:25-26 | `==` holds exactly for equal counts |
| PolarityCounters.PlusCommutes | src/precise_nlp/extract/polarity_counter.py:17-23 | `a + b == b + a` |
| PolarityCounters.PlusAssociates | src/precise_nlp/extract/polarity_counter.py:17-23 | `+` is associative |
| PolarityCounters.AddedIsPlus | src/precise_nlp/extract/polarity_counter.py:13-23 | `add` in place equals `+` with the counter its arguments describe |
| PolarityCounters.UnknownIffZero | src/precise_nlp/extract/polarity_counter.py:9-11 | with non-negative counts, `unknown` holds exactly when both counts are zero |
| PathWords.IsInVocabulary | src/precise_nlp/extract/path/path_word.py:12-20 | for a vocabulary, `isin` is membership of the lower-cased word |
| PathWords.IsInIgnoresCase | src/precise_nlp/extract/path/path_word.py:12-20 | `isin` sees neither the word's case nor its index or trailing text |
| PathWords.IsInExample | src/precise_nlp/extract/path/path_word.py:19-20 | "Polyp" is in ["polyps", "polyp"] but not in ["polyps"] |
| PathWords.EndsWithAnyIff | src/precise_nlp/extract/path/path_word.py:22-23 | `endswith(*s)` holds exactly when the word as written ends with one of the suffixes |
| PathWords.StopInIff | src/precise_nlp/extract/path/path_word.py:31-32 | the stop pattern `.*([:.]).*` matches exactly when a ':' or '.' occurs before any line break |
| PathWords.StopOnOneLine | src/precise_nlp/extract/path/path_word.py:31-32 | on one line, a word stops a scan exactly when its trailing text holds ':' or '.' |
| PathWords.EqualsWordIsEquivalence | src/precise_nlp/extract/path/path_word.py:34-38 | word equality is reflexive, symmetric and transitive, and ignores case, index and trailing text |
| PathWords.EqualsTextIsEqualsWord | src/precise_nlp/extract/path/path_word.py:34-38 | comparing with a string is comparing with a word that spells it, and ignores the string's case |
| PathWords.ContainsTextIgnoresCase | src/precise_nlp/extract/path/path_word.py:40-41 | `other in word` ignores the case of both sides |
| PathSections.SplEnd | src/precise_nlp/extract/path/path_section.py:24-31 | a token's trailing text runs from its match's end to the next match or the end of the text |
| PathSections.Tokenize | src/precise_nlp/extract/path/path_section.py:18-32 | one word per match, numbered 0 to n-1 in order, none empty |
| PathSections.TokenizeRebuilds | src/precise_nlp/extract/path/path_section.py:24-31 | from the first word on, the words and their trailing texts spell the section text back |
| PathSections.SliceEnd | src/precise_nlp/extract/path/path_section.py:60-68 | a Python slice end index, negative or not, never passes the length |
| PathSections.Window | src/precise_nlp/extract/path/path_section.py:60-68 | `ws[lo:hi]` has the expected length and elements |
| PathSections.ScanBack | src/precise_nlp/extract/path/path_section.py:60-65 | the look-behind finds only a word of the window that is in the terms |
| PathSections.ScanBackFindsNearest | src/precise_nlp/extract/path/path_section.py:60-65 | the look-behind returns exactly the nearest term word with no stop word between it and the cursor (the stop is tested before the term) |
| PathSections.ScanForward | src/precise_nlp/extract/path/path_section.py:68-73 | the look-ahead finds only a word of the window that is in the terms |
| PathSections.ScanForwardFindsFirst | src/precise_nlp/extract/path/path_section.py:68-73 | the look-ahead returns exactly the first term word with no stop word before it (the term is tested before the stop) |
| PathSections.StopOrderDiffers | src/precise_nlp/extract/path/path_section.py:60-73 | a word that both stops and matches ends a look-behind empty-handed but is found by a look-ahead |
| PathSections.BehindWindow | src/precise_nlp/extract/path/path_section.py:60 | `has_before` looks only at words before the cursor |
| PathSections.AheadWindow | src/precise_nlp/extract/path/path_section.py:68 | `has_after` looks only at words after the cursor |
| PathSections.LookBehind | src/precise_nlp/extract/path/path_section.py:49-65 | `has_before` returns a term word of the section, before the cursor when the offset allows |
| PathSections.LookAhead | src/precise_nlp/extract/path/path_section.py:67-73 | `has_after` returns a term word after the cursor |
| PathSections.PathSection.PrevWords | src/precise_nlp/extract/path/path_section.py:45-47 | `iter_prev_words` gives the words before the cursor, nearest first |
| PathSections.PathSection.HasBefore | src/precise_nlp/extract/path/path_section.py:49-65 | the loop over the reversed window returns the look-behind's word, a term word before the cursor |
| PathSections.PathSection.HasAfter | src/precise_nlp/extract/path/path_section.py:67-73 | the loop over the window returns the look-ahead's word, a term word after the cursor |
| PathSections.PathSection.constructor | src/precise_nlp/extract/path/path_section.py:18-32 | the section holds the tokenised words and no current word |
| PathSections.PathSection.MoveTo | src/precise_nlp/extract/path/path_section.py:37-39 | one step of iteration makes word i current and leaves the words alone |
| PolypSizes.Insert | src/precise_nlp/extract/path/polyp_size.py:71 | inserting into an ascending list keeps it ascending and adds exactly the one value |
| PolypSizes.SortAsc | src/precise_nlp/extract/path/polyp_size.py:71 | `sorted(args)` is ascending and a permutation of its input |
| PolypSizes.SortDesc | src/precise_nlp/extract/path/polyp_size.py:57 | `sorted(..., reverse=True)` is descending and a permutation of its input |
| PolypSizes.Set | src/precise_nlp/extract/path/polyp_size.py:67-77 | `set(*args)`: count 1; up to three values fill both sizes with all of them, ascending; more than three put the three smallest in max_size and the next (at most three) in min_size, no value of max_size above one of min_size, and every dropped value at least as large as min_size's |
| PolypSizes.DroppedAreLargest | src/precise_nlp/extract/path/polyp_size.py:72-74 | the values beyond the sixth that `args[3:6]` leaves out are no smaller than the ones it keeps |
| PolypSizes.Scaled | src/precise_nlp/extract/path/polyp_size.py:57 | each group is `float(m)`, times ten in centimetres; a group that is not a number raises ValueError |
| PolypSizes.ParseGroups | src/precise_nlp/extract/path/polyp_size.py:51-57 | `_parse_groups`: the scaled group values, descending and a permutation of them; fails exactly when a group is not a number |
| PolypSizes.ParseText | src/precise_nlp/extract/path/polyp_size.py:31-49 | `_parse_text`: no match raises; a result is multi-dimensional, has both sizes non-empty, descending and each largest value below 100, and reuses min_size when there is no max |
| PolypSizes.TooBigRejected | src/precise_nlp/extract/path/polyp_size.py:44-45 | a minimum size of 100 or more raises ValueError('Too big!') |
| PolypSizes.ParseTextAccepts | src/precise_nlp/extract/path/polyp_size.py:31-49 | a multi-dimensional match with small enough sizes and at least two dimensions gives exactly that PolypSize |
| PolypSizes.OneDimensionRejected | src/precise_nlp/extract/path/polyp_size.py:48-49 | at most one dimension in all raises |
| PolypSizes.GetMaxDim | src/precise_nlp/extract/path/polyp_size.py:59-60 | `get_max_dim` is `max_size[0]`, and an IndexError for an empty max_size |
| PolypSizes.SetOneMaxDim | src/precise_nlp/extract/path/polyp_size.py:59-77 | a size set from one value has that value as its maximum dimension |
| PolypSizes.SetMaxDimIsSmallest | src/precise_nlp/extract/path/polyp_size.py:59-77 | after `set`, `get_max_dim` is the smallest argument, because `set` sorts ascending |
| PolypSizes.Less | src/precise_nlp/extract/path/polyp_size.py:62-65 | `<` compares maximum dimensions, and raises ValueError against anything that is not a PolypSize |
| Utils.DepthBandsUnfold | src/precise_nlp/extract/utils.py:11-37 | `depth_to_location`: each of the nine bands adds its segment, in order, exactly when the depth is inside its closed interval |
| Utils.DepthToLocation | src/precise_nlp/extract/utils.py:11-37 | the chain of `if`s returns the segments of the bands containing the depth, in band order |
| Utils.BandsAtMembers | src/precise_nlp/extract/utils.py:11-37 | a segment is returned exactly when one of its bands contains the depth |
| Utils.DepthAlwaysLocated | src/precise_nlp/extract/utils.py:19-36 | every depth, negative or beyond 147 cm, gets at least one segment |
| Utils.DepthFourIsAnusAndRectum | src/precise_nlp/extract/utils.py:19-22 | the band ends overlap: 4 cm is both anus and rectum |
| Utils.StandardizeLocation | src/precise_nlp/extract/utils.py:149-154 | a term is looked up lower-cased in `LOCATIONS`; an unknown term raises ValueError |
| Utils.StandardizeLocations | src/precise_nlp/extract/utils.py:156-163 | the loop returns the standardised list, or the first unknown term's ValueError |
| Utils.StandardizedKeepsError | src/precise_nlp/extract/utils.py:156-163 | an unknown term ends the loop: the error of a prefix is the error of the whole list |
| Utils.StandardizedOkIffKnown | src/precise_nlp/extract/utils.py:149-163 | `standardize_locations` succeeds exactly when every term is in `LOCATIONS` |
| Utils.StandardizedFlattens | src/precise_nlp/extract/utils.py:156-163 | without the colon filter, the output holds exactly the segments of the terms, tuples flattened by `append_str` |
| Utils.FilterColonInColon | src/precise_nlp/extract/utils.py:172-174 | `filter_colon` keeps only segments in `COLON` (a two-segment tuple is never in it) |
| Utils.HistologyKeysAreTerms | src/precise_nlp/extract/utils.py:129-136 | the histology words the rule walk tests are exactly the keys of `HISTOLOGY` |
| Utils.HistologyOf | src/precise_nlp/extract/utils.py:165-170 | `histology(item)` is the lower-cased term's entry, and ValueError for an unknown term |
| Utils.LastIndex | src/precise_nlp/extract/utils.py:192 | `{x: i for i, x in enumerate(text)}` keeps the position of the last occurrence |
| Utils.SliceMembers | src/precise_nlp/extract/utils.py:195 | the words of `text[start:start + distance]` are the ones at the positions it covers |
| Utils.NumbersFollowedBy | src/precise_nlp/extract/utils.py:185-197 | `NumberConvert.contains`: one value per distinct number token that qualifies (no follower asked for, or one within distance of its last occurrence), and exactly those values |
| Patterns.NumberEnd | src/precise_nlp/const/patterns.py:7 | `NUMBER_PATTERN` matches at the start exactly when the text starts with a digit, and the match stays in the text |
| Patterns.NumberValue | src/precise_nlp/const/patterns.py:7 | the value of the number the pattern matches, and None exactly when it does not match |
| Patterns.DepthHasNumber | src/precise_nlp/const/patterns.py:7-8 | the depth pattern matches only where the number pattern does |
| Patterns.DepthExamples | src/precise_nlp/const/patterns.py:8 | "15cm" is a depth and a bare "15" is not |
| Patterns.SplitNonWord | src/precise_nlp/extract/utils.py:189 | `re.split(r'\W+', s)` gives at least one piece, each of word characters only |
| Patterns.SplitNonWordExamples | src/precise_nlp/extract/utils.py:189 | "a b" splits into two words and " a." has an empty piece at each end |
| Jars.WithDepth | src/precise_nlp/extract/path/jar.py:36-43 | `set_depth` records the depth and appends the depth's segments (never none) after the existing locations, nothing else changes |
| Jars.WithPolypSize | src/precise_nlp/extract/path/jar.py:45-54 | `set_polyp_size` appends one size whose maximum dimension is the size in mm (times ten for cm), nothing else changes |
| Jars.WithLocations | src/precise_nlp/extract/path/jar.py:56-57 | `add_locations` appends the standardised locations, or raises the first unknown term's ValueError |
| Jars.WithHistology | src/precise_nlp/extract/path/jar.py:62-63 | `add_histology` appends the standard histology, or raises ValueError for an unknown term |
| Jars.WithSessileSerrated | src/precise_nlp/extract/path/jar.py:84-88 | `add_ssa` / `add_ssp` add one to the sessile serrated count, nothing else changes |
| Jars.WithAdenomaCount | src/precise_nlp/extract/path.py:496-497 | `add_adenoma_count` is `adenoma_count.add(...)`, nothing else changes |
| Jars.WithDysplasia | src/precise_nlp/extract/path/jar_manager.py:189-194 | `add_dysplasia` is `dysplasia.add(...)` on a PolarityCounter, nothing else changes |
| Jars.WithKind | src/precise_nlp/extract/path/jar.py:10 | a kind is appended to `kinds`, nothing else changes |
| Jars.WithPolypCount | src/precise_nlp/extract/maybe_counter.py:27-30 | `polyp_count.set(n)` gives an exact count n, nothing else changes |
| Jars.WithMorePolyps | src/precise_nlp/extract/path/jar_manager.py:277-279 | setting `polyp_count.greater_than` keeps the count and makes it "more than", nothing else changes |
| Jars.NewJarIsEmpty | src/precise_nlp/extract/path/jar.py:9-26 | a new jar has one (exact) polyp, zero adenomas in every bucket, empty lists, no depth and unknown dysplasia |
| Jars.AddCarcinomaAsWritten | src/precise_nlp/extract/path/jar.py:90-96 | the two-parameter `add_carcinoma` raises TypeError exactly when an `in_situ` keyword is passed |
| Jars.CarcinomaCounted | src/precise_nlp/extract/path/jar.py:90-96 | `add_carcinoma`: UNKNOWN/DEFINITE add a carcinoma, PROBABLE/POSSIBLE/IMPROBABLE a maybe, NEGATED neither; the mention is always recorded and nothing else changes |
| Jars.CarcinomaTally | src/precise_nlp/extract/path/jar.py:90-96 | over many mentions, carcinomas plus maybes plus negated mentions equal the mentions recorded |
| Jars.TopDim | src/precise_nlp/extract/path/jar.py:66-70 | `sorted(polyp_size, reverse=True)[0].get_max_dim()` is the largest maximum dimension of all sizes |
| Jars.MinMaxComplement | src/precise_nlp/extract/path/jar.py:65-70 | with a size recorded, `has_min_size(t)` and `has_max_size(t)` are complements, and the first means some size reaches t |
| Jars.NoSizeNoTest | src/precise_nlp/extract/path/jar.py:65-73 | the size is unknown exactly when neither size test holds |
| Jars.HasAdenomaIff | src/precise_nlp/extract/path/jar.py:75-76 | `has_adenoma` holds exactly when the count is positive, or zero and "more than" |
| Jars.ColonFilter | src/precise_nlp/extract/utils.py:172-174 | `filter_colon` over standard names keeps exactly the colon segments |
| Jars.IsColonIff | src/precise_nlp/extract/path.py:418-419 | `is_colon` (as many distinct locations as distinct colon locations) holds exactly when every location is in the colon |
| Jars.IsImpliesMaybe | src/precise_nlp/extract/path.py:418-494 | without a depth, each "is" location test implies its "maybe" test |
| Jars.RectumIsDistalAndRectal | src/precise_nlp/extract/path.py:424-494 | the buckets overlap: a jar only in the rectum is distal and rectal, and not proximal |
| Jars.DepthBucketsExclusive | src/precise_nlp/extract/path.py:424-486 | by depth alone distal, proximal and rectal exclude each other, and 82 cm falls in none |
| Jars.LocationsOrNone | src/precise_nlp/extract/path/jar.py:78-82 | `locations_or_none` yields the colon locations in order, or one None when there are none |
| Jars.Jar.AddLocations | src/precise_nlp/extract/path/jar.py:56-57 | the jar's new state is `add_locations`' result, and is unchanged when it raises |
| Jars.Jar.AddLocation | src/precise_nlp/extract/path/jar.py:59-60 | `add_location(l)` is `add_locations([l])` |
| Jars.Jar.AddHistology | src/precise_nlp/extract/path/jar.py:62-63 | the jar's new state is `add_histology`'s result, and is unchanged when it raises |
| Jars.Jar.constructor | src/precise_nlp/extract/path/jar.py:9-26 | a new jar is NewJar |
| Jars.Jar.SetDepth | src/precise_nlp/extract/path/jar.py:36-43 | the jar's new state is WithDepth of the old one |
| Jars.Jar.SetPolypSize | src/precise_nlp/extract/path/jar.py:45-54 | the jar's new state is WithPolypSize of the old one |
| Jars.Jar.AddSsa | src/precise_nlp/extract/path/jar.py:84-85 | the sessile serrated count goes up by one, nothing else changes |
| Jars.Jar.AddSsp | src/precise_nlp/extract/path/jar.py:87-88 | the sessile serrated count goes up by one, nothing else changes |
| Jars.Jar.AddCarcinoma | src/precise_nlp/extract/path/jar.py:90-96 | the jar's new state is WithCarcinoma of the old one, the mention recorded with its in-situ flag |
| Jars.Jar.AddAdenomaCount | src/precise_nlp/extract/path/jar_manager.py:137-176 | the adenoma count is increased as WithAdenomaCount says, nothing else changes |
| Jars.Jar.AddDysplasia | src/precise_nlp/extract/path/jar_manager.py:186-194 | the dysplasia counter is increased as WithDysplasia says, nothing else changes |
| Jars.Jar.AddKind | src/precise_nlp/extract/path/jar.py:10 | the kind is appended, nothing else changes |
| Jars.Jar.SetPolypCount | src/precise_nlp/extract/path/jar_manager.py:121-135 | the polyp count becomes exactly n, nothing else changes |
| Jars.Jar.MarkMorePolyps | src/precise_nlp/extract/path/jar_manager.py:277-279 | the polyp count becomes "more than" its number, nothing else changes |
| JarWalk.NumberWordsConvert | src/precise_nlp/extract/path/jar_manager.py:30-36 | every word of `NUMBER` is a key of `NUMBER_CONVERT`, so a number word found in lower case always converts |
| JarWalk.KnownLocation | src/precise_nlp/extract/path/jar.py:56-60 | a word of the location table always standardises, and adding it appends exactly its standard locations |
| JarWalk.LocationArm | src/precise_nlp/extract/path/jar_manager.py:91-95 | the location branch either skips a specifying word that describes a following location or appends the word's standard locations; the jar only grows |
| JarWalk.MeasureArm | src/precise_nlp/extract/path/jar_manager.py:97-119 | a measure under 10 cm is a polyp size (only when a dimension word follows), one of 10 cm or more is the depth; the jar only grows |
| JarWalk.Convert | src/precise_nlp/extract/path/jar_manager.py:132 | `NUMBER_CONVERT[str(num)]` succeeds exactly when the word is a key, with that key's value; otherwise KeyError |
| JarWalk.PolypNumber | src/precise_nlp/extract/path/jar_manager.py:128-130 | the number the polyp branch reads is a number word of the section |
| JarWalk.PolypsArm | src/precise_nlp/extract/path/jar_manager.py:121-135 | the polyps branch never changes the adenoma count and only grows the jar; its only failure is a KeyError, which lower-case words never raise |
| JarWalk.PolypsCounted | src/precise_nlp/extract/path/jar_manager.py:128-135 | the first polyp word sets the polyp count and marks a polyp found, leaving adenomas alone; failure only as a KeyError, never in lower case |
| JarWalk.AdenomaNumber | src/precise_nlp/extract/path/jar_manager.py:147-155 | the number the adenomas branch reads is a number word of the section |
| JarWalk.AdenomasArm | src/precise_nlp/extract/path/jar_manager.py:137-167 | the adenomas branch only grows the jar, leaves it unchanged when the adenoma is negated, and fails only with a KeyError, never in lower case |
| JarWalk.AdenomasCounted | src/precise_nlp/extract/path/jar_manager.py:156-167 | the adenoma count added after the fragment check only grows the jar; failure only as a KeyError, never in lower case |
| JarWalk.AdenomaArm | src/precise_nlp/extract/path/jar_manager.py:169-176 | the single-adenoma branch only grows the jar and leaves it unchanged when negated |
| JarWalk.HistologyArm | src/precise_nlp/extract/path/jar_manager.py:181-184 | the histology branch either skips a negated term or appends exactly its standard histology |
| JarWalk.DysplasiaArm | src/precise_nlp/extract/path/jar_manager.py:186-194 | the dysplasia branch counts at most one dysplasia, negative or positive, and otherwise leaves the jar unchanged |
| JarWalk.Qualifiers | src/precise_nlp/extract/path/jar_manager.py:204-219 | the loop over earlier words ends on an index within the words (or 0 when there are none), never before where it started |
| JarWalk.QualifiersAt | src/precise_nlp/extract/path/jar_manager.py:206-219 | one round of the loop steps over a qualifier or joining word, notes 'situ', or stops on the current index |
| JarWalk.QualifiersStop | src/precise_nlp/extract/path/jar_manager.py:206-219 | the loop ends on the first word it does not pass over |
| JarWalk.QualifiersRunOut | src/precise_nlp/extract/path/jar_manager.py:205-219 | when every earlier word is passed over, `enumerate` leaves the index on the last word, one short of all of them |
| JarWalk.CarcinomaArm | src/precise_nlp/extract/path/jar_manager.py:203-233 | the intended carcinoma branch only grows the jar |
| JarWalk.CarcinomaArmRecords | src/precise_nlp/extract/path/jar_manager.py:224-233 | the intended carcinoma branch appends exactly one mention, the term spanning the qualifiers, and keeps the earlier ones |
| JarWalk.CarcinomaCallFails | src/precise_nlp/extract/path/jar_manager.py:227-233 | as written, every cancer word raises TypeError from the `in_situ=` keyword, where the intended branch records one more mention |
| JarWalk.CarcinomaSpansQualifiers | src/precise_nlp/extract/path/jar_manager.py:206-224 | a mention preceded by m qualifiers and then another word is recorded as those m words and the cancer word |
| JarWalk.QualifiersBefore | src/precise_nlp/extract/path/jar_manager.py:206-219 | over the words before the cancer word, the loop stops m words back at the first word it does not pass over |
| JarWalk.CarcinomaTermFrom | src/precise_nlp/extract/path/jar_manager.py:220-224 | with no 'situ' after the word, the mention is the words from the loop's index through the cancer word |
| JarWalk.CarcinomaDropsFirstQualifier | src/precise_nlp/extract/path/jar_manager.py:205-224 | when every word before the cancer word is a qualifier, the first word of the section is left out of the mention |
| JarWalk.Step | src/precise_nlp/extract/path/jar_manager.py:90-233 | one word of the walk only grows the jar; its only failure is a KeyError, never in lower case |
| JarWalk.StepOther | src/precise_nlp/extract/path/jar_manager.py:178-233 | the descriptive branches always succeed, only grow the jar and leave the found-polyp flag alone |
| JarWalk.ConvertsInLowerCase | src/precise_nlp/extract/path/jar_manager.py:128-161 | a number word read from lower-case words always converts |
| JarWalk.WalkNext | src/precise_nlp/extract/path/jar_manager.py:90-233 | the walk over one more word succeeds only after the shorter walk did and extends its jar; a failure stays; a new failure is a KeyError, never in lower case |
| JarWalk.ChainKeeps | src/precise_nlp/extract/path/jar_manager.py:86-233 | along the walk, every jar built is sane, every failure is a KeyError, and lower-case words never fail |
| JarWalk.ChainGrows | src/precise_nlp/extract/path/jar_manager.py:86-233 | along the walk, a later success extends every earlier point |
| JarWalk.Trace | src/precise_nlp/extract/path/jar_manager.py:90 | the results after 0, 1, ..., n words, one per prefix |
| JarWalk.TraceIsChain | src/precise_nlp/extract/path/jar_manager.py:90-233 | the walk's results form a chain of steps |
| JarWalk.NewJarSane | src/precise_nlp/extract/path/jar.py:9-26 | a new jar is sane: no count is negative and the carcinoma tallies fit within its list of mentions |
| JarWalk.WalkKeeps | src/precise_nlp/extract/path/jar_manager.py:86-233 | any prefix of the walk fails only with KeyError, never in lower case, and each jar it builds is sane |
| JarWalk.ExaminedKeeps | src/precise_nlp/extract/path/jar_manager.py:86-238 | a whole section fails only with KeyError, never in lower case, and the jar built is sane |
| JarWalk.WalkGrows | src/precise_nlp/extract/path/jar_manager.py:86-233 | a later point of the walk extends every earlier one: nothing recorded is ever lost |
| JarWalk.ChainFails | src/precise_nlp/extract/path/jar_manager.py:86-233 | along the walk, a failure is final |
| JarWalk.WalkFails | src/precise_nlp/extract/path/jar_manager.py:86-233 | once the walk fails it ends with the same error |
| JarWalk.WalkStep | src/precise_nlp/extract/path/jar_manager.py:90-233 | after a successful prefix, the next word is exactly one step |
| JarWalk.LetterWordIsNoMeasure | src/precise_nlp/extract/path/jar_manager.py:97-111 | a word starting with a letter is never taken for a depth or size measure |
| JarWalk.AdenomaWordIsNoLocation | src/precise_nlp/extract/path/jar_manager.py:14-23 | no adenoma word is a location or polyp word, so the earlier branches never take one |
| JarWalk.NegatedAdenomaUnchanged | src/precise_nlp/extract/path/jar_manager.py:68-69 | an adenoma word followed within two words by 'not', 'none' or 'no' leaves the jar as it was |
| JarWalk.QualifierScan | src/precise_nlp/extract/path/jar_manager.py:204-219 | the loop over `iter_prev_words()` returns the index and the in-situ flag of Qualifiers |
| JarWalk.ExamineLocation | src/precise_nlp/extract/path/jar_manager.py:91-95 | the location branch on the jar object leaves it in LocationArm's state |
| JarWalk.ExamineMeasure | src/precise_nlp/extract/path/jar_manager.py:97-119 | the measure branches on the jar object leave it in MeasureArm's state |
| JarWalk.FindPolypNumber | src/precise_nlp/extract/path/jar_manager.py:128-130 | the section object's lookups give PolypNumber |
| JarWalk.ExaminePolyps | src/precise_nlp/extract/path/jar_manager.py:121-135 | the polyps branch on the jar object agrees with PolypsArm, success and failure |
| JarWalk.CountPolyps | src/precise_nlp/extract/path/jar_manager.py:128-135 | the polyp counting on the jar object agrees with PolypsCounted, success and failure |
| JarWalk.FindAdenomaNumber | src/precise_nlp/extract/path/jar_manager.py:147-155 | the section object's lookups give AdenomaNumber |
| JarWalk.CountAdenomas | src/precise_nlp/extract/path/jar_manager.py:156-167 | the adenoma counting on the jar object agrees with AdenomasCounted, success and failure |
| JarWalk.ExamineAdenomas | src/precise_nlp/extract/path/jar_manager.py:137-167 | the adenomas branch on the jar object agrees with AdenomasArm, success and failure |
| JarWalk.ExamineAdenoma | src/precise_nlp/extract/path/jar_manager.py:169-176 | the single-adenoma branch on the jar object leaves it in AdenomaArm's state |
| JarWalk.ExamineHistology | src/precise_nlp/extract/path/jar_manager.py:181-184 | the histology branch on the jar object leaves it in HistologyArm's state |
| JarWalk.ExamineDysplasia | src/precise_nlp/extract/path/jar_manager.py:186-194 | the dysplasia branch on the jar object leaves it in DysplasiaArm's state |
| JarWalk.FindCarcinomaStatus | src/precise_nlp/extract/path/jar_manager.py:225-233 | the status the branch picks, probable, negated, possible or definite, is CarcinomaStatus |
| JarWalk.FindCarcinomaTerm | src/precise_nlp/extract/path/jar_manager.py:204-224 | the recorded words are CarcinomaTerm, with the loop's index and a flag set by a 'situ' before or after |
| JarWalk.ExamineCarcinoma | src/precise_nlp/extract/path/jar_manager.py:203-233 | the intended carcinoma branch on the jar object leaves it in CarcinomaArm's state |
| JarWalk.ExamineWord | src/precise_nlp/extract/path/jar_manager.py:90-233 | the loop body on the jar object agrees with Step, success and failure |
| JarWalk.ExamineOther | src/precise_nlp/extract/path/jar_manager.py:178-233 | the descriptive branches on the jar object agree with StepOther |
| JarWalk.ExamineNext | src/precise_nlp/extract/path/jar_manager.py:90-233 | one turn of the loop extends the walk by exactly one word |
| JarWalk.ExamineWords | src/precise_nlp/extract/path/jar_manager.py:87-233 | the loop over every word builds a fresh jar whose state is Examined of the words, or fails with Examined's error |
| JarWalk.ExamineSection | src/precise_nlp/extract/path/jar_manager.py:86-233 | a section's text, tokenised, is examined from a new jar: Examined of the tokens |
| JarManagers.CountWhere | src/precise_nlp/extract/path/jar_manager.py:539-555 | a jar tally never exceeds the number of jars |
| JarManagers.CountWhereExtremes | src/precise_nlp/extract/path/jar_manager.py:539-555 | a jar tally is 0 exactly when no jar qualifies and is the number of jars exactly when every jar does |
| JarManagers.Positioned | src/precise_nlp/extract/path/jar_manager.py:277-300 | a positional counter takes the adenoma count when the jar is in the bucket; with allow_maybe, a maybe-jar with adenomas gets an "at least" mark on its old count; otherwise it is unchanged |
| JarManagers.Postprocessed | src/precise_nlp/extract/path/jar_manager.py:270-303 | postprocess changes only the four positional counters of a jar and keeps it well formed |
| JarManagers.PostprocessDefault | src/precise_nlp/extract/path/jar_manager.py:270-303 | by default each bucket counter of an unplaced jar is the adenoma count exactly when the jar is in that bucket, else zero; the unknown counter takes the count only when no bucket did |
| JarManagers.PostprocessIdempotent | src/precise_nlp/extract/path/jar_manager.py:270-303 | running postprocess twice is the same as once |
| JarManagers.PostprocessJar | src/precise_nlp/extract/path/jar_manager.py:276-303 | the loop body with its `counts` list gives Postprocessed |
| JarManagers.CountInJarIsSum | src/precise_nlp/extract/path/jar_manager.py:305-317 | COUNT_IN_JAR adds the jars' counters: the sum of the counts (a "more than" adds one), never "more than", "at least" exactly when some jar's counter is qualified |
| JarManagers.OnePerJarCountsJars | src/precise_nlp/extract/path/jar_manager.py:305-317 | ONE_PER_JAR is the exact number of jars whose counter is truthy |
| JarManagers.HistologyBounded | src/precise_nlp/extract/path/jar_manager.py:477-520 | the histology total is the number of colon jars with the category, and no bucket nor the unknown count exceeds it |
| JarManagers.HistologyUnknownApart | src/precise_nlp/extract/path/jar_manager.py:494-519 | without allow_maybe a jar counted unknown is in no bucket, so unknown plus any one bucket fits in the total |
| JarManagers.HistologyJar | src/precise_nlp/extract/path/jar_manager.py:491-519 | the loop body with its `counts` list gives HistologyStep |
| JarManagers.MaybeTally | src/precise_nlp/extract/path/jar_manager.py:557-568 | the maybe-carcinoma loop counts at most every jar |
| JarManagers.MaybeTallyCounts | src/precise_nlp/extract/path/jar_manager.py:557-568 | with probable_only it counts the candidate jars with a maybe carcinoma; without it, it fails exactly when some candidate has none, reading the missing `carcinomas_possible` |
| JarManagers.MaybeTallyFails | src/precise_nlp/extract/path/jar_manager.py:561-567 | once the loop fails on a jar, the whole call fails with that error |
| JarManagers.LocationsWithMembers | src/precise_nlp/extract/path/jar_manager.py:375-426 | a location is yielded exactly when some selected jar has it, or None for a selected jar with no locations |
| JarManagers.SizesSplitLocations | src/precise_nlp/extract/path/jar_manager.py:398-411 | when every jar has a size, the min-size and max-size generators at one threshold split the jars' locations between them, as the docstring promises |
| JarManagers.LocateStep | src/precise_nlp/extract/path/jar_manager.py:447-461 | one word of `find_locations` only adds locations or sets the depth |
| JarManagers.LocateWalk | src/precise_nlp/extract/path/jar_manager.py:447-461 | the whole `find_locations` loop keeps every other field and every earlier location |
| JarManagers.LocateSection | src/precise_nlp/extract/path/jar_manager.py:446-461 | the loop over a new section gives LocateWalk over its tokens |
| JarManagers.JarManager.constructor | src/precise_nlp/extract/path/jar_manager.py:41-43 | a new manager has no jars and no current jar |
| JarManagers.JarManager.CursoryDiagnosisExamination | src/precise_nlp/extract/path/jar_manager.py:86-238 | on success the examined jar is appended and becomes current; a failure is the walk's KeyError and leaves the manager as it was |
| JarManagers.JarManager.GetCurrentJar | src/precise_nlp/extract/path/jar_manager.py:265-268 | the current jar, or ValueError('No current jar') exactly when there is none |
| JarManagers.JarManager.FindLocations | src/precise_nlp/extract/path/jar_manager.py:442-461 | fails exactly when there is no current jar; otherwise only the current jar changes, to its located state (unchanged when it already has locations) |
| JarManagers.JarManager.CheckDysplasia | src/precise_nlp/extract/path/jar_manager.py:463-466 | fails exactly when there is no current jar, and otherwise returns at once because the dysplasia counter object is always true |
| JarManagers.JarManager.Postprocess | src/precise_nlp/extract/path/jar_manager.py:270-303 | every jar is replaced by its postprocessed state, nothing else changes |
| JarManagers.JarManager.GetAdenomaCount | src/precise_nlp/extract/path/jar_manager.py:305-373 | the five adenoma getters return AdenomaTotal for their bucket and method |
| JarManagers.JarManager.GetHistology | src/precise_nlp/extract/path/jar_manager.py:477-520 | returns the histology tally of the jars |
| JarManagers.JarManager.GetAnyDysplasia | src/precise_nlp/extract/path/jar_manager.py:522-531 | 1 exactly when some jar has positive dysplasia, 0 exactly when none has and some has negative dysplasia, else 99 |
| JarManagers.JarManager.HasDysplasia | src/precise_nlp/extract/path/jar_manager.py:533-537 | true exactly when some jar has positive dysplasia |
| JarManagers.JarManager.GetSessileSerratedCount | src/precise_nlp/extract/path/jar_manager.py:539-546 | NotImplementedError without jar_count, else the number of jars with a sessile serrated adenoma |
| JarManagers.JarManager.GetCarcinomaCount | src/precise_nlp/extract/path/jar_manager.py:548-555 | NotImplementedError without jar_count, else the number of colon jars with a definite carcinoma not only a colonic melanoma |
| JarManagers.JarManager.GetCarcinomaMaybeCount | src/precise_nlp/extract/path/jar_manager.py:557-568 | NotImplementedError without jar_count, else the maybe tally |
| JarManagers.JarManager.GetCarcinomaInSituCount | src/precise_nlp/extract/path/jar_manager.py:570-577 | NotImplementedError without jar_count; AttributeError on `carcinomas_in_situ` exactly when some jar is in the colon; 0 otherwise |
| JarManagers.JarManager.GetCarcinomaInSituMaybeCount | src/precise_nlp/extract/path/jar_manager.py:579-590 | NotImplementedError without jar_count; AttributeError on `carcinomas_in_situ_maybe` exactly when some jar is a candidate; 0 otherwise |
| JarManagers.JarManager.GetLocationsWith | src/precise_nlp/extract/path/jar_manager.py:375-426 | the location generators, collected in order, give LocationsWith |
| PathManagers.LettersBetween | src/precise_nlp/extract/path/path_manager.py:163 | `range(ord(lo) + 1, ord(hi) + 1)`: the letters strictly after lo up to hi, in order, empty when hi is not after lo |
| PathManagers.RangeFrom | src/precise_nlp/extract/path/path_manager.py:150-169 | the loop only appends lower-case letters to what it has, and its only failure is an IndexError |
| PathManagers.ParseSpecimenRange | src/precise_nlp/extract/path/path_manager.py:146-170 | the while loop of `parse_specimen_range` returns SpecimenRange of the label |
| PathManagers.Letters | src/precise_nlp/extract/path/path_manager.py:160-167 | the lower-case letters of a string, in order |
| PathManagers.PlainRangeFrom | src/precise_nlp/extract/path/path_manager.py:150-169 | with no '-' and no 'and' ahead, the loop appends exactly the remaining letters, in order |
| PathManagers.PlainRange | src/precise_nlp/extract/path/path_manager.py:146-170 | a label of single letters joined by ',' or '&' names exactly its letters, in order |
| PathManagers.DashRange | src/precise_nlp/extract/path/path_manager.py:162-163 | 'x-y' names x and every letter after it up to y |
| PathManagers.RangeExamples | src/precise_nlp/extract/path/path_manager.py:146-170 | 'a-c' names a, b, c; 'a,c' names a, c; 'a and b' names a, b |
| PathManagers.AndExample | src/precise_nlp/extract/path/path_manager.py:154-156 | the word 'and' acts as ',', so 'a and b' names a and b |
| PathManagers.LetterStep | src/precise_nlp/extract/path/path_manager.py:160-168 | a letter not after '-' is appended as it is and becomes the previous character |
| PathManagers.SkipStep | src/precise_nlp/extract/path/path_manager.py:157-169 | a character that is neither a marker nor a lower-case letter is passed over |
| PathManagers.AndStep | src/precise_nlp/extract/path/path_manager.py:154-156 | 'and' sets the marker ',' and skips itself and the character after it |
| PathManagers.RangeOddities | src/precise_nlp/extract/path/path_manager.py:154-163 | a '-' with no letter before it and a trailing 'an' raise IndexError; capital letters are passed over |
| PathManagers.Prefix | src/precise_nlp/extract/path/path_manager.py:113 | Python's `s[:n]` is n characters long, or all of s when it is shorter |
| PathManagers.Suffix | src/precise_nlp/extract/path/path_manager.py:114 | Python's `s[n:]` is what is left after n characters, or empty |
| PathManagers.Append | src/precise_nlp/extract/path/path_manager.py:99-121 | `defaultdict(list)` append: the text goes at the end of its key's list, a new key at the end of the key order, other keys unchanged |
| PathManagers.CommentAsWrittenEmpty | src/precise_nlp/extract/path/path_manager.py:113-114 | as written, the comment is read from the already-shortened text, so it is always empty |
| PathManagers.CommentLost | src/precise_nlp/extract/path/path_manager.py:113-114 | for "dx: polyp. comment: benign" the code as written keeps no comment, where the intended reading keeps " benign" |
| PathManagers.Comment | src/precise_nlp/extract/path/path_manager.py:113-114 | the intended comment is exactly the text after the match |
| PathManagers.Parts | src/precise_nlp/extract/path/path_manager.py:111-114 | without a comment match the body is all of the text; with one, the body is the text before the match and the comment the text after it |
| PathManagers.AddEntry | src/precise_nlp/extract/path/path_manager.py:121-123 | the body, then a non-empty comment, go at the end of the key's list; other keys unchanged |
| PathManagers.AddEach | src/precise_nlp/extract/path/path_manager.py:116-119 | the body and comment are filed under each letter of the range; keys outside it are unchanged |
| PathManagers.AddBlock | src/precise_nlp/extract/path/path_manager.py:105-123 | a blank block is skipped; the round fails exactly when a range label raises IndexError |
| PathManagers.Grouped | src/precise_nlp/extract/path/path_manager.py:99-123 | the loop builds a dictionary whose key order lists each key once |
| PathManagers.GroupedFiles | src/precise_nlp/extract/path/path_manager.py:105-123 | every block with text and a plain label has its body filed under its lower-cased label |
| PathManagers.AddBlockFiles | src/precise_nlp/extract/path/path_manager.py:120-121 | a block with text and a plain label files its body under its label |
| PathManagers.AddBlockKeeps | src/precise_nlp/extract/path/path_manager.py:105-123 | a round of the loop never takes an entry away |
| PathManagers.AddEachKeeps | src/precise_nlp/extract/path/path_manager.py:116-119 | filing under more letters never takes an entry away |
| PathManagers.GroupBlocks | src/precise_nlp/extract/path/path_manager.py:105-123 | the loop over the blocks gives Grouped |
| PathManagers.FileBlock | src/precise_nlp/extract/path/path_manager.py:106-123 | one round of the loop gives AddBlock |
| PathManagers.GroupedKeepsError | src/precise_nlp/extract/path/path_manager.py:105-123 | an error in the first n blocks is the error of them all |
| PathManagers.SpecialCases | src/precise_nlp/extract/path/path_manager.py:124-141 | fails with IndexError exactly when specimen 'a' has no block and the first two cases do not apply; otherwise only specimen 'a' changes and the key order stays |
| PathManagers.DropsReceivedIntro | src/precise_nlp/extract/path/path_manager.py:140-141 | a short 'received' block with no specimen 'b' goes; the rest of 'a' stays |
| PathManagers.DropsLongIntro | src/precise_nlp/extract/path/path_manager.py:125-129 | a long first block of 'a', with more blocks than 'b', is dropped: 'a' loses exactly its first block |
| PathManagers.JoinsPreview | src/precise_nlp/extract/path/path_manager.py:131-139 | a short preview without intro words is joined to the next block, leaving 'a' with as many blocks as 'b' and no text lost |
| PathManagers.ParsedJars | src/precise_nlp/extract/path/path_manager.py:96-143 | a parsed report's dictionary lists each key once |
| PathManagers.ParseJars | src/precise_nlp/extract/path/path_manager.py:96-143 | the method gives ParsedJars |
| PathManagers.Combined | src/precise_nlp/extract/path/path_manager.py:142 | one string per specimen, in key order, its blocks joined by spaces |
| PathManagers.Spans | src/precise_nlp/extract/path/path_section.py:34-35 | the word spans lie inside the text and in order, and are the tokeniser's own whenever it gives such spans |
| PathManagers.Steps | src/precise_nlp/extract/path/path_manager.py:35-40 | the manager's steps are the examination and the location walk over the tokens |
| PathManagers.ReadSpecimen | src/precise_nlp/extract/path/path_manager.py:33-43 | a specimen's jar is appended and becomes current exactly when it reads; a specimen with no section is an IndexError, a failing walk its own error, and either leaves the jars as they were |
| PathManagers.ReadSpecimenJar | src/precise_nlp/extract/path/path_manager.py:35-41 | a specimen that reads appends its examined jar, located when it has a second section |
| PathManagers.ReadNext | src/precise_nlp/extract/path/path_manager.py:33-43 | reading one more specimen is one ReadSpecimen after the earlier ones |
| PathManagers.ReadStops | src/precise_nlp/extract/path/path_manager.py:33-43 | an error stops the loop: no later specimen is read |
| PathManagers.ReadOneJarPerKey | src/precise_nlp/extract/path/path_manager.py:33-43 | without an error, reading n specimens appends one jar per specimen in key order, each built from that specimen's sections, and the last is current |
| PathManagers.ReadFailureKeeps | src/precise_nlp/extract/path/path_manager.py:33-43 | after an error the manager keeps the earlier jars and those read before the error, and fewer than one per specimen |
| PathManagers.PostprocessedAll | src/precise_nlp/extract/path/path_manager.py:48-53 | `_read_jars_postprocess` post-processes every jar with allow_maybe False |
| PathManagers.ReadAllOneJarPerKey | src/precise_nlp/extract/path/path_manager.py:32-46 | a first successful read leaves exactly one post-processed jar per specimen, in key order |
| PathManagers.RetryAppendsAgain | src/precise_nlp/extract/path/path_manager.py:9-46 | a failed read keeps the jars it appended and leaves the flag unset, so the next query reads every specimen again on top of them |
| PathManagers.Then | src/precise_nlp/extract/path/path_manager.py:9-15 | the wrapper raises the read's error, else returns the query's result |
| PathManagers.PathManager.constructor | src/precise_nlp/extract/path/path_manager.py:20-27 | a parsed report starts with an empty JarManager and nothing read |
| PathManagers.PathManager.Create | src/precise_nlp/extract/path/path_manager.py:20-27 | an empty text has no specimens; any other text is parsed, and a parse error is raised |
| PathManagers.PathManager.ReadJars | src/precise_nlp/extract/path/path_manager.py:32-46 | `_read_jars` leaves the manager in ReadAll's state and raises its first error |
| PathManagers.PathManager.ReadSpecimens | src/precise_nlp/extract/path/path_manager.py:33-43 | the loop over the specimens in key order, up to the first error, gives Read |
| PathManagers.PathManager.ReadSpecimenAt | src/precise_nlp/extract/path/path_manager.py:33-43 | the specimen after the first i either continues the read without error or ends it for good |
| PathManagers.PathManager.ReadSpecimenInto | src/precise_nlp/extract/path/path_manager.py:35-43 | one specimen on the manager gives ReadSpecimen |
| PathManagers.PathManager.Examine | src/precise_nlp/extract/path/path_manager.py:35 | on success the diagnosis section's jar is appended and becomes current; a failure leaves the manager as it was |
| PathManagers.PathManager.Locate | src/precise_nlp/extract/path/path_manager.py:39-40 | a second section locates the jar just appended and changes nothing else |
| PathManagers.PathManager.EnsureRead | src/precise_nlp/extract/path/path_manager.py:9-15 | the decorator reads the jars only when they have not been read |
| PathManagers.PathManager.GetAdenomaCount | src/precise_nlp/extract/path/path_manager.py:55-73 | the read's error, else the adenoma total of the read jars for the bucket and method |
| PathManagers.PathManager.GetSessileSerratedCount | src/precise_nlp/extract/path/path_manager.py:75-77 | the read's error, else NotImplementedError without jar_count, else the number of sessile serrated jars |
| PathManagers.PathManager.GetCarcinomaCount | src/precise_nlp/extract/path/path_manager.py:79-81 | the read's error, else NotImplementedError without jar_count, else the number of carcinoma jars |
| PathManagers.PathManager.GetCarcinomaMaybeCount | src/precise_nlp/extract/path/path_manager.py:83-85 | the read's error, else NotImplementedError without jar_count, else the maybe tally with probable_only False |
| PathManagers.PathManager.GetCarcinomaInSituCount | src/precise_nlp/extract/path/path_manager.py:87-89 | the read's error, else NotImplementedError without jar_count, else AttributeError exactly when some jar is in the colon, else 0 |
| PathManagers.PathManager.GetCarcinomaInSituMaybeCount | src/precise_nlp/extract/path/path_manager.py:91-93 | the read's error, else NotImplementedError without jar_count, else AttributeError exactly when some jar is a candidate, else 0 |
| PathManagers.PathManager.GetHistology | src/precise_nlp/extract/path/path_manager.py:198-206 | the read's error, else the histology tally of the read jars |
| PathManagers.PathManager.HasDysplasia | src/precise_nlp/extract/path/path_manager.py:208-214 | the read's error, else whether any read jar has positive dysplasia |
| PathManagers.PathManager.GetLocationsWith | src/precise_nlp/extract/path/path_manager.py:172-182 | the read's error, else the locations of the selected jars in order |
| PathManagers.PathManager.GetLocationsWithSize | src/precise_nlp/extract/path/path_manager.py:184-196 | the read's error, else the min-size locations when a minimum is given, followed by the max-size ones when a maximum is given |
| Findings.MaxOf | src/precise_nlp/extract/cspy/finding_builder.py:49 | `max(s)` is an element of s and no element exceeds it |
| Findings.Size | src/precise_nlp/extract/cspy/finding_builder.py:47-49 | the size is 0 without sizes, otherwise the largest of the sizes |
| Findings.Location | src/precise_nlp/extract/cspy/finding_builder.py:51-53 | the location is None exactly when there are no locations, otherwise the first |
| Findings.Copy | src/precise_nlp/extract/cspy/finding_builder.py:55-58 | a copy is one polyp at the given location, keeping sizes, removal and depth |
| Findings.Len | src/precise_nlp/extract/cspy/finding_builder.py:63-64 | `len` is the largest of the count, the number of sizes and the number of distinct locations |
| Findings.LastOne | src/precise_nlp/extract/cspy/finding_builder.py:71-72 | `s[-1:]` is empty for an empty s, else the last element alone |
| Findings.Rows | src/precise_nlp/extract/cspy/finding_builder.py:68 | `zip_longest` yields as many rows as the longest of the count, the sizes and the locations |
| Findings.Split | src/precise_nlp/extract/cspy/finding_builder.py:66-76 | a finding no longer than one is yielded alone; a longer one yields one part per row |
| Findings.SplitLength | src/precise_nlp/extract/cspy/finding_builder.py:63-76 | a split yields at least `len(finding)` findings, exactly that many (or one) when no location repeats |
| Findings.SplitCountsRepeats | src/precise_nlp/extract/cspy/finding_builder.py:63-76 | a repeated location counts once for `len` but twice for the split: sigmoid, sigmoid, rectum gives len 2 and three parts |
| Findings.SplitPartsAreSingle | src/precise_nlp/extract/cspy/finding_builder.py:66-74 | every part of a split is one truthy polyp, splits into itself, and keeps the removal flag |
| Findings.SplitKeepsSizesAndLocations | src/precise_nlp/extract/cspy/finding_builder.py:68-74 | a split loses no size or location and invents none, and no part is larger than the finding |
| Findings.Merge | src/precise_nlp/extract/cspy/finding_builder.py:133-141 | the merge takes the larger count and depth, either removal, and the locations and sizes of both in order |
| Findings.CanMergeSymmetric | src/precise_nlp/extract/cspy/finding_builder.py:123-131 | whether two findings can merge does not depend on their order, and a finding can merge with itself |
| Findings.MergeAssociative | src/precise_nlp/extract/cspy/finding_builder.py:133-141 | merging a run of findings gives the same result however the merges are grouped |
| Findings.MergeSize | src/precise_nlp/extract/cspy/finding_builder.py:133-141 | for non-negative sizes, the merged size is the larger of the two sizes |
| Findings.MergeTruthy | src/precise_nlp/extract/cspy/finding_builder.py:133-141 | a merged finding is truthy exactly when either part is |
| Findings.MergeFrom | src/precise_nlp/extract/cspy/finding_builder.py:147-154 | the merge loop from a pending finding yields between one and all of the findings |
| Findings.Merged | src/precise_nlp/extract/cspy/finding_builder.py:143-155 | `get_merged_findings` never yields more findings than it had, and nothing exactly when it had none |
| Findings.MergeFromKeeps | src/precise_nlp/extract/cspy/finding_builder.py:147-154 | the merge loop keeps every size and location, in order |
| Findings.MergedKeeps | src/precise_nlp/extract/cspy/finding_builder.py:143-155 | merging loses no size and no location and keeps their order |
| Findings.MergeFromUnmergeable | src/precise_nlp/extract/cspy/finding_builder.py:147-154 | when no neighbours can merge, the loop returns the findings as they were |
| Findings.MergedUnmergeable | src/precise_nlp/extract/cspy/finding_builder.py:143-155 | only neighbours merge: with no mergeable neighbours the list is returned unchanged |
| Findings.MergedPair | src/precise_nlp/extract/cspy/finding_builder.py:143-155 | two mergeable findings become their merge, two others stay apart |
| Findings.CopiesOf | src/precise_nlp/extract/cspy/finding_builder.py:168-173 | a finding with at most one location is kept; otherwise one copy per location up to the count |
| Findings.CopiesPartition | src/precise_nlp/extract/cspy/finding_builder.py:168-174 | for several locations, the copies take the locations up to the count one each and the extra locations are the rest; together they are the finding's locations in order |
| Findings.CopiesSnoc | src/precise_nlp/extract/cspy/finding_builder.py:167-174 | the stored findings and extra locations of a list grow one finding at a time |
| Findings.SplitAllTruthy | src/precise_nlp/extract/cspy/finding_builder.py:157-162 | every finding `split_findings2` yields is truthy |
| FindingBuilders.Pieces | src/precise_nlp/extract/cspy/finding_builder.py:239-241 | the text around n matches comes in n + 1 pieces |
| FindingBuilders.CutOutNothing | src/precise_nlp/extract/cspy/finding_builder.py:239-244 | with no match the text is kept as it is |
| FindingBuilders.Float | src/precise_nlp/extract/cspy/finding_builder.py:223-227 | `float(s)` succeeds exactly on a decimal number |
| FindingBuilders.GroupSize | src/precise_nlp/extract/cspy/finding_builder.py:219-227 | 0 for a missing group; a '<' prefix takes 0.1 off, '>' adds 0.1; a bad number raises |
| FindingBuilders.Kept | src/precise_nlp/extract/cspy/finding_builder.py:231-238 | a group size is kept exactly when it is positive and at most 100 mm after the cm conversion |
| FindingBuilders.HitSizes | src/precise_nlp/extract/cspy/finding_builder.py:231-238 | each size kept from a match is positive and at most 100 mm |
| FindingBuilders.AllHitSizes | src/precise_nlp/extract/cspy/finding_builder.py:229-238 | every size kept from all matches is positive and at most 100 mm; the first unreadable number raises |
| FindingBuilders.DepthKept | src/precise_nlp/extract/cspy/finding_builder.py:264-266 | the depth loop keeps at most the matches it saw |
| FindingBuilders.DepthKeptMembers | src/precise_nlp/extract/cspy/finding_builder.py:264-266 | each kept match is a match not followed within 15 characters by 'size' |
| FindingBuilders.DepthLocationsFound | src/precise_nlp/extract/cspy/finding_builder.py:267-273 | every readable depth lies in a band, so the step finds a location exactly when it kept a match |
| FindingBuilders.SplitKeyText | src/precise_nlp/extract/cspy/finding_builder.py:114-121 | without a key the text is the lower-cased text; with one, key, splitter and value make up the lower-cased text, the key is at most 40 long and holds no splitter |
| FindingBuilders.SplitAt | src/precise_nlp/extract/cspy/finding_builder.py:116-121 | the first splitter whose key is at most 40 long splits the text at its first occurrence |
| FindingBuilders.NotFoundBefore | src/precise_nlp/extract/cspy/finding_builder.py:117-118 | the text before the first occurrence of a splitter does not contain it |
| FindingBuilders.Largest | src/precise_nlp/extract/cspy/finding_builder.py:255-256 | the largest member of a finite set |
| FindingBuilders.CountFloor | src/precise_nlp/extract/cspy/finding_builder.py:248-254 | the table `get_count` adds is present exactly when 'polyp' or 'polyps' occurs |
| FindingBuilders.Count | src/precise_nlp/extract/cspy/finding_builder.py:246-258 | a count exactly when a polyp is mentioned: positive, at least the table's value and at least every number before 'polyp' |
| FindingBuilders.Table | src/precise_nlp/extract/cspy/finding_builder.py:97-112 | every transition leads closer to DONE, DONE alone accepts, and NONE has no entry |
| FindingBuilders.ExcludedIsBlank | src/precise_nlp/extract/cspy/finding_builder.py:191-196 | a segment with an exclusion word goes from START to DONE and gives the empty finding |
| FindingBuilders.ExtractDepthFound | src/precise_nlp/extract/cspy/finding_builder.py:260-273 | a depth step that reports success leaves locations, and one that leaves none had none before |
| FindingBuilders.RunKeepsLocations | src/precise_nlp/extract/cspy/finding_builder.py:182-187 | once a finding has locations no later step removes them |
| FindingBuilders.RunFindsLocations | src/precise_nlp/extract/cspy/finding_builder.py:100-110 | before a depth is found, DONE is reached only through a step that found a location |
| FindingBuilders.FsmFindingHasLocation | src/precise_nlp/extract/cspy/finding_builder.py:178-213 | `extract_location` always raises, so every finding built for a segment that is not excluded has a location from a depth |
| FindingBuilders.FsmWithoutMatchesRaises | src/precise_nlp/extract/cspy/finding_builder.py:202-213 | a segment that is not excluded and matches no pattern reaches LOCATION and raises ValueError |
| FindingBuilders.NoMatchesFromPolyp | src/precise_nlp/extract/cspy/finding_builder.py:101-108 | from POLYP, a text without size or depth matches reaches the location step and raises |
| FindingBuilders.NoMatchRun | src/precise_nlp/extract/cspy/finding_builder.py:101-107 | a size or depth state whose matchers find nothing moves to its false branch with the same finding and text |
| FindingBuilders.LocationRaises | src/precise_nlp/extract/cspy/finding_builder.py:205 | `for location, loc_pat in` over three-element entries always raises ValueError |
| FindingBuilders.RunStep | src/precise_nlp/extract/cspy/finding_builder.py:182-187 | one turn of the loop: the step's indicator picks the next state, with the step's finding and text |
| FindingBuilders.NoMatchStep | src/precise_nlp/extract/cspy/finding_builder.py:215-273 | a size or depth step without matches reports failure and keeps the finding and the text |
| FindingBuilders.RunBounds | src/precise_nlp/extract/cspy/finding_builder.py:178-189 | every finding the machine builds has a count that is not negative and sizes positive and at most 100 mm |
| FindingBuilders.ApplyBounds | src/precise_nlp/extract/cspy/finding_builder.py:191-285 | each step keeps the count non-negative and the sizes within (0, 100] |
| FindingBuilders.CountIn | src/precise_nlp/extract/cspy/finding_builder.py:246-258 | the executable `get_count` gives Count |
| FindingBuilders.MaxWith | src/precise_nlp/extract/cspy/finding_builder.py:255-256 | `max(values + [floor])` is at least the floor and every value, and is one of them |
| FindingBuilders.LargestOfValues | src/precise_nlp/extract/cspy/finding_builder.py:255-256 | the largest of a list and a floor does not depend on the list's order |
| FindingBuilders.Act | src/precise_nlp/extract/cspy/finding_builder.py:191-285 | one step as the builder performs it gives Apply |
| FindingBuilders.FindingBuilder.constructor | src/precise_nlp/extract/cspy/finding_builder.py:87-92 | a new builder has no findings |
| FindingBuilders.FindingBuilder.Create | src/precise_nlp/extract/cspy/finding_builder.py:87-96 | only SINGLE_FINDING is accepted; any other version raises ValueError |
| FindingBuilders.FindingBuilder.Fsm | src/precise_nlp/extract/cspy/finding_builder.py:178-189 | the machine's result is Built, and exactly that one finding is appended; an error appends nothing |
| FindingBuilders.FindingBuilder.MergedFindings | src/precise_nlp/extract/cspy/finding_builder.py:143-155 | the loop gives Merged of the stored findings |
| FindingBuilders.FindingBuilder.SplitFindings | src/precise_nlp/extract/cspy/finding_builder.py:164-176 | the stored findings grow by the copies, and the extra locations are returned |
| FindingBuilders.FindingBuilder.SplitEach | src/precise_nlp/extract/cspy/finding_builder.py:167-174 | the loop collects Copies and Extras |
| FindingBuilders.FindingBuilder.SplitStep | src/precise_nlp/extract/cspy/finding_builder.py:167-174 | one more finding adds its own copies and extra locations |
| FindingBuilders.FindingBuilder.SplitOne | src/precise_nlp/extract/cspy/finding_builder.py:168-174 | the loop body for one finding gives CopiesOf and ExtraOf |
| FindingBuilders.FindingBuilder.CopyEach | src/precise_nlp/extract/cspy/finding_builder.py:171-173 | the inner loop gives one copy per location up to the count |
| FindingBuilders.FindingBuilder.SplitFindings2 | src/precise_nlp/extract/cspy/finding_builder.py:157-162 | every finding yielded is truthy |
| BaseFindings.CountOf | src/precise_nlp/extract/cspy/base_finding.py:40-42 | the count is `_count`, or 1 when that is 0; a SingleFinding's count is always 1 |
| BaseFindings.NaiveCompatible | src/precise_nlp/extract/cspy/naive_finding.py:11-32 | for one source, compatible exactly when b is not the only removal, the counts do not clash, the location sets are equal and not both have a size; across sources never with two sets of locations or clashing counts |
| BaseFindings.MaxReal | src/precise_nlp/extract/cspy/naive_finding.py:41 | `max` of two sizes is one of them and at least both |
| BaseFindings.MergedValue | src/precise_nlp/extract/cspy/naive_finding.py:34-43 | the merge has the larger count, either removal, a's locations then b's, and the larger size when both are set, else the one that is set |
| BaseFindings.MergeIntoLast | src/precise_nlp/extract/cspy/naive_finding.py:11-43 | folding a compatible new finding into the last keeps its location set, takes the new removal and the one size that is set, and one of the two counts |
| BaseFindings.CompatibleNotSymmetric | src/precise_nlp/extract/cspy/naive_finding.py:15-16 | compatibility is not symmetric: a removal is compatible after a plain finding but not before it |
| BaseFindings.KindCompatible | src/precise_nlp/extract/cspy/naive_finding.py:11-13 | findings of different classes raise ValueError; SingleFindings are never compatible; NaiveFindings use NaiveCompatible |
| BaseFindings.KindMerged | src/precise_nlp/extract/cspy/single_finding.py:29-32 | the merge fails with ValueError exactly for different classes or a SingleFinding; two NaiveFindings give MergedValue |
| BaseFindings.SingleNeverMerges | src/precise_nlp/extract/cspy/single_finding.py:20-32 | a SingleFinding is never compatible, never merges, and counts 1 |
| BaseFindings.SplitFirst | src/precise_nlp/extract/cspy/base_finding.py:97-101 | `split(c, maxsplit=1)` of a string containing c: before, c and after make up the string, and the part before has no c |
| BaseFindings.KeyValue | src/precise_nlp/extract/cspy/base_finding.py:94-104 | the segment is split at its first '—', else ':', else '-'; without a key, or with an empty key or one over 40, the value is the whole lower-cased segment |
| BaseFindings.HitMmValue | src/precise_nlp/extract/cspy/base_finding.py:79-82 | a match's size is the larger of its two groups, times ten in cm, and fails exactly when a group is unreadable |
| BaseFindings.LargerBounds | src/precise_nlp/extract/cspy/base_finding.py:85-86 | after a match the size is set and at least the match's size, either the old size or the new one, the larger when one was set |
| BaseFindings.SizeScan | src/precise_nlp/extract/cspy/base_finding.py:79-88 | the scan uses at most the matches it saw |
| BaseFindings.SizeScanPicks | src/precise_nlp/extract/cspy/base_finding.py:79-88 | the size a scan ends with is the one it started from or the size of a match of at most 100 mm |
| BaseFindings.SizeScanKeepsLargest | src/precise_nlp/extract/cspy/base_finding.py:83-86 | the size a scan ends with is at least every positive size of at most 100 mm it passed: only the largest is kept |
| BaseFindings.SizeScanGrows | src/precise_nlp/extract/cspy/base_finding.py:79-88 | one more match never lowers a positive size and brings the size up to its own when it is at most 100 mm |
| BaseFindings.SizeScanFromPositive | src/precise_nlp/extract/cspy/base_finding.py:79-88 | a scan from a positive size ends with a size at least as large |
| BaseFindings.SizeScanSkipsLarge | src/precise_nlp/extract/cspy/base_finding.py:83-84 | matches over 100 mm are never taken: the size and the text are kept |
| BaseFindings.Readings | src/precise_nlp/extract/cspy/base_finding.py:80 | one reading per match |
| BaseFindings.ScanOfReadings | src/precise_nlp/extract/cspy/base_finding.py:79-88 | the scan over the matches' readings is the scan of the matches |
| BaseFindings.ScanOfKeepsError | src/precise_nlp/extract/cspy/base_finding.py:79-80 | an unreadable size in a prefix is the error of the whole scan |
| BaseFindings.DepthKeptAppend | src/precise_nlp/extract/cspy/base_finding.py:56-58 | the kept depth matches of two runs of matches are the kept matches of each, in order |
| BaseFindings.DepthSpansAppend | src/precise_nlp/extract/cspy/base_finding.py:60-61 | the spans cut out of two runs are the spans of each, in order |
| BaseFindings.DepthLocationsAppend | src/precise_nlp/extract/cspy/base_finding.py:59 | the locations of two runs of depths are those of the first then the second, and the first error stops them |
| BaseFindings.DepthStepAdds | src/precise_nlp/extract/cspy/base_finding.py:53-63 | a depth step adds a location exactly when it keeps a match, and never takes one away |
| BaseFindings.PiecesSnoc | src/precise_nlp/extract/cspy/base_finding.py:60-62 | a further match splits the last piece of the text at it |
| BaseFindings.Spelled | src/precise_nlp/extract/cspy/base_finding.py:116-122 | the terms found as words are at most all the terms |
| BaseFindings.StdTerms | src/precise_nlp/extract/cspy/base_finding.py:127 | standardising keeps at least one location per term and gives none only for no term |
| BaseFindings.PolypCount | src/precise_nlp/extract/cspy/base_finding.py:129-130 | the count is the largest value of a number followed within three words by 'polyp(s)', or 0 |
| BaseFindings.NoNumberNoCount | src/precise_nlp/extract/cspy/base_finding.py:129-130 | without a number before 'polyp' or 'polyps' the count is 0 |
| BaseFindings.CountNumbers | src/precise_nlp/extract/cspy/base_finding.py:129-130 | the executable count gives PolypCount |
| BaseFindings.PolypCountIs | src/precise_nlp/extract/cspy/base_finding.py:129-130 | the largest of the qualifying values, or 0, in any order, is the polyp count |
| BaseFindings.ParsedLocations | src/precise_nlp/extract/cspy/base_finding.py:106-127 | a parsed finding has no location only when neither its segment nor the previous finding has one; it takes the previous locations exactly when it finds none |
| BaseFindings.ParsedCount | src/precise_nlp/extract/cspy/base_finding.py:128-130 | the count of a parsed finding is the largest number followed within three words by 'polyp(s)', or 0 |
| BaseFindings.StandaloneNeedsMore | src/precise_nlp/extract/cspy/base_finding.py:134-142 | a finding that took the previous locations stands alone exactly when it has a size or a count |
| BaseFindings.BaseFinding.constructor | src/precise_nlp/extract/cspy/base_finding.py:11-27 | the fields are set from the arguments, a location becomes a one-element list, the source is always None, and a SingleFinding's count is 1 |
| BaseFindings.BaseFinding.Count | src/precise_nlp/extract/cspy/base_finding.py:40-42 | the count property is CountOf, at least 1 |
| BaseFindings.BaseFinding.IsStandalone | src/precise_nlp/extract/cspy/base_finding.py:134-142 | `is_standalone` is Standalone of the finding and the previous locations |
| BaseFindings.BaseFinding.IsCompatible | src/precise_nlp/extract/cspy/naive_finding.py:11-32 | `is_compatible` is KindCompatible of the two findings |
| BaseFindings.BaseFinding.Merge | src/precise_nlp/extract/cspy/naive_finding.py:34-43 | on success the finding becomes the merge; an error leaves it unchanged |
| BaseFindings.BaseFinding.ExtractSize | src/precise_nlp/extract/cspy/base_finding.py:65-90 | the size becomes the scan's size and the text loses the matches used; only the size changes; an unreadable number raises |
| BaseFindings.BaseFinding.SizeLoop | src/precise_nlp/extract/cspy/base_finding.py:79-90 | the loop of `extract_size` gives the scan's size and the text cut at its spans |
| BaseFindings.BaseFinding.ExtractDepth | src/precise_nlp/extract/cspy/base_finding.py:53-63 | the kept matches' locations are added and the text loses those matches; only the locations change |
| BaseFindings.BaseFinding.DepthLoop | src/precise_nlp/extract/cspy/base_finding.py:56-63 | the loop of `extract_depth` gives DepthStep |
| BaseFindings.BaseFinding.AddSpelledOut | src/precise_nlp/extract/cspy/base_finding.py:115-127 | the terms found in the key (or, without a key, in the value) are appended, standardised; nothing else changes |
| BaseFindings.BaseFinding.SpelledIn | src/precise_nlp/extract/cspy/base_finding.py:116-120 | the loop over the terms gives Spelled |
| BaseFindings.BaseFinding.Measure | src/precise_nlp/extract/cspy/base_finding.py:106-114 | the four measuring steps give Measured: size, locations and remaining text, or its error |
| BaseFindings.BaseFinding.ParseFinding | src/precise_nlp/extract/cspy/base_finding.py:92-132 | `parse_finding` makes a fresh finding of the given class whose value is Parsed, or raises Parsed's error |
| BaseFindings.BaseFinding.Complete | src/precise_nlp/extract/cspy/base_finding.py:115-131 | the spelled-out locations, the previous locations when none was found, the polyp count and the removal words |
| BaseFindings.ScanOfStep | src/precise_nlp/extract/cspy/base_finding.py:79-88 | one more reading: an error stops, a size over 100 mm is passed over, any other is taken |
| BaseFindings.SizeErrorIsFinal | src/precise_nlp/extract/cspy/base_finding.py:80 | an unreadable size is the error of the whole size step |
| BaseFindings.SizeLoopDone | src/precise_nlp/extract/cspy/base_finding.py:89-90 | at the end of the loop the pieces and the tail make up the text left |
| BaseFindings.SizeSkippedNext | src/precise_nlp/extract/cspy/base_finding.py:83-84 | a size over 100 mm leaves the loop's state as it is |
| BaseFindings.SizeUsedNext | src/precise_nlp/extract/cspy/base_finding.py:85-88 | a readable size of at most 100 mm updates the size and cuts the match from the text |
| BaseFindings.DepthKeptNext | src/precise_nlp/extract/cspy/base_finding.py:59-61 | a kept, readable depth adds its bands and cuts the match from the text |
| BaseFindings.DepthErrorIsFinal | src/precise_nlp/extract/cspy/base_finding.py:59 | an unreadable depth in a kept match is the error of the whole depth step |
| BaseFindings.DepthKeptSplit | src/precise_nlp/extract/cspy/base_finding.py:56-58 | the kept matches around a kept match i are those before it, it, and those after it |
| BaseFindings.DepthKeptOne | src/precise_nlp/extract/cspy/base_finding.py:59-61 | a kept match with a readable depth adds its bands and its span |
| BaseFindings.SpelledStep | src/precise_nlp/extract/cspy/base_finding.py:116-122 | one term of the loop is found or not |
| BaseFindings.DepthKeptStep | src/precise_nlp/extract/cspy/base_finding.py:56-58 | one more match is kept exactly when 'size' does not follow it |
| BaseFindings.StdTermsAppend | src/precise_nlp/extract/cspy/base_finding.py:127 | standardising two runs of terms is standardising each, in order |
| FindingPatterns.Int | src/precise_nlp/extract/cspy/finding_patterns.py:34 | `int(size)` succeeds exactly on a group that took part and holds only digits |
| FindingPatterns.GetSize | src/precise_nlp/extract/cspy/finding_patterns.py:33-39 | `get_size` fails exactly when the number does not read |
| FindingPatterns.GetSizeUnit | src/precise_nlp/extract/cspy/finding_patterns.py:33-39 | the size is ten times the number exactly when its own unit, or lacking one the other size's unit, is 'cm' |
| FindingPatterns.OwnUnitWins | src/precise_nlp/extract/cspy/finding_patterns.py:35-38 | the second unit is consulted only when the size has no unit of its own |
| FindingPatterns.SharedUnit | src/precise_nlp/extract/cspy/finding_patterns.py:33-39 | "1 to 3 cm": the first size takes the second size's unit, a size's own unit wins |
| FindingPatterns.FromGroupsShape | src/precise_nlp/extract/cspy/finding_patterns.py:51-70 | one size gives count 1, two sizes count 2 with each unit falling back to the other; the location is the one matched; any other set of group names raises ValueError |
| FindingPatterns.Apply | src/precise_nlp/extract/cspy/finding_patterns.py:46-71 | at most one finding is yielded |
| FindingPatterns.ApplyFirstMatch | src/precise_nlp/extract/cspy/finding_patterns.py:47-71 | the first pattern in table order that matches decides, and later patterns play no part |
| FindingPatterns.ApplyNothing | src/precise_nlp/extract/cspy/finding_patterns.py:46-71 | nothing is yielded exactly when no pattern matches |
| FindingPatterns.ApplyTableNeverRaises | src/precise_nlp/extract/cspy/finding_patterns.py:12-70 | the table's own patterns always have one of the two group shapes, so the intended function never raises on them |
| FindingPatterns.FirstSome | src/precise_nlp/extract/cspy/finding_patterns.py:47-48 | the first pattern that matches, at or before a known match |
| FindingPatterns.FromGroupsAsWritten | src/precise_nlp/extract/cspy/finding_patterns.py:51-70 | as written every match raises: an unreadable size first, otherwise the TypeError of the `source=` keyword |
| FindingPatterns.ApplyAsWrittenNeverYields | src/precise_nlp/extract/cspy/finding_patterns.py:46-71 | as written nothing is ever yielded: no match gives nothing, and where the intended function yields a finding it raises the `source` TypeError |
| FindingPatterns.SourceKeywordFails | src/precise_nlp/extract/cspy/finding_patterns.py:53-58 | "polyp 5 mm in the sigmoid colon": the intended table yields a 5 mm finding, the code as written raises |
| Cspy.SectionStep | src/precise_nlp/extract/cspy/cspy.py:76-94 | one turn of `_get_sections` keeps the current header a key of the sections |
| Cspy.SectionsAfter | src/precise_nlp/extract/cspy/cspy.py:75-94 | after any pieces the current header is still a key of the sections |
| Cspy.LastStep | src/precise_nlp/extract/cspy/cspy.py:75-94 | the turn for the last piece keeps the current header a key |
| Cspy.SectionsAfterLast | src/precise_nlp/extract/cspy/cspy.py:75-94 | the loop over the pieces is the loop over all but the last, then one turn |
| Cspy.SectionsAfterSnoc | src/precise_nlp/extract/cspy/cspy.py:75-94 | the loop over i + 1 pieces is the loop over i pieces then one turn |
| Cspy.StepGrows | src/precise_nlp/extract/cspy/cspy.py:78-89 | one piece never drops a section nor shortens its text |
| Cspy.SectionsOnlyGrow | src/precise_nlp/extract/cspy/cspy.py:75-94 | no section is ever reset: a header seen again keeps its text, and every section's text only grows |
| Cspy.RepeatedHeaderAppends | src/precise_nlp/extract/cspy/cspy.py:78-89 | text after a repeated header is appended to that section, after a space when it was not empty |
| Cspy.TitleIsFirstText | src/precise_nlp/extract/cspy/cspy.py:82-85 | a first non-blank piece that is not a header becomes the title, stripped |
| Cspy.TitleKept | src/precise_nlp/extract/cspy/cspy.py:83-84 | once set, the title is never replaced |
| Cspy.SectionsFromHeaders | src/precise_nlp/extract/cspy/cspy.py:78-81 | every section is named by a header piece without its last character |
| Cspy.SectionTexts | src/precise_nlp/extract/cspy/cspy.py:96-101 | the non-empty texts of the sections with the category's labels, at most one per label |
| Cspy.AfterLast | src/precise_nlp/extract/cspy/cspy.py:197 | `s.split(c)[-1]` is a suffix of s without c, shorter than s when c occurs and all of s otherwise |
| Cspy.Deenumerate | src/precise_nlp/extract/cspy/cspy.py:180-210 | `_deenumerate` either gives the items or raises IndexError |
| Cspy.DeenumerateBlank | src/precise_nlp/extract/cspy/cspy.py:182-184 | a blank text has no items |
| Cspy.DeenumerateUnmarked | src/precise_nlp/extract/cspy/cspy.py:185-210 | a text of at most 100 characters with no list marker at its start is one item, stripped |
| Cspy.DeenumerateLoneOne | src/precise_nlp/extract/cspy/cspy.py:191 | a lone '1' raises IndexError on `sect[1]` |
| Cspy.DeenumerateBullets | src/precise_nlp/extract/cspy/cspy.py:187-189 | a bulleted text is split at the bullet, the leading bullet dropped |
| Cspy.FindingSegments | src/precise_nlp/extract/cspy/cspy.py:137-139 | the items that reach the parser are exactly those that mention no exam or lesion |
| Cspy.Dedup | src/precise_nlp/extract/cspy/cspy.py:149 | `list(set(...))` holds each location once and no other |
| Cspy.AddFinding | src/precise_nlp/extract/cspy/cspy.py:143-149 | the first finding is kept; afterwards the list grows by at most one, only its last finding can change, and counts stay non-negative |
| Cspy.ParseSkipsNonFindings | src/precise_nlp/extract/cspy/cspy.py:135-140 | items mentioning an exam or lesion are skipped as if absent |
| Cspy.ParseOutcome | src/precise_nlp/extract/cspy/cspy.py:135-149 | a section's entry is created exactly when some item reaches the parser; it holds at least one finding and at most one per item parsed |
| Cspy.SectionEntries | src/precise_nlp/extract/cspy/cspy.py:126-132 | a section gives at most one entry, under its own label, with at least one finding |
| Cspy.BroadEntries | src/precise_nlp/extract/cspy/cspy.py:124-133 | every entry of the broad findings is a finding label's and holds at least one finding; earlier entries are kept |
| Cspy.CountSum | src/precise_nlp/extract/cspy/cspy.py:44 | the sum of the counts is at least the number of findings when no count is negative |
| Cspy.MostPolyps | src/precise_nlp/extract/cspy/cspy.py:44 | the largest count sum over the entries is one of them and at least each |
| Cspy.NumPolypsBounds | src/precise_nlp/extract/cspy/cspy.py:43-46 | no polyp exactly when there is no findings entry; otherwise at least one |
| Cspy.Collected | src/precise_nlp/extract/cspy/cspy.py:152-159 | the indications collected are exactly those of some indications section, at most one per section |
| Cspy.FirstListed | src/precise_nlp/extract/cspy/cspy.py:160-164 | the first indication of the priority list that was collected, else UNKNOWN |
| Cspy.IndicationChosen | src/precise_nlp/extract/cspy/cspy.py:151-164 | diagnostic wins over surveillance, surveillance over screening; with none of them the indication is unknown, each as an if-and-only-if |
| Cspy.ExtentOf | src/precise_nlp/extract/cspy/cspy.py:166-171 | complete exactly when the complete pattern matches, incomplete exactly when only the incomplete one does, else unknown |
| Cspy.PrepOutcome | src/precise_nlp/extract/cspy/cspy.py:173-178 | no prep word gives UNKNOWN; a word outside the table raises KeyError exactly then, with that word |
| Cspy.FairIsInadequate | src/precise_nlp/extract/cspy/cspy.py:173-177 | a 'Fair' preparation is inadequate, whichever pattern found it |
| Cspy.Large | src/precise_nlp/extract/cspy/cspy.py:220-222 | the findings with a size of at least the minimum, exactly |
| Cspy.OfSize | src/precise_nlp/extract/cspy/cspy.py:212-223 | the findings of any entry with a size of at least the minimum, exactly |
| Cspy.PreciseHasNoFindings | src/precise_nlp/extract/cspy/cspy.py:117-122 | `get_findings_precise` returns nothing, so a precise run keeps no findings and counts no polyp |
| Cspy.BroadPolyps | src/precise_nlp/extract/cspy/cspy.py:124-133 | a broad run counts at least one polyp exactly when some findings section gave a finding |
| Cspy.CspyManager.constructor | src/precise_nlp/extract/cspy/cspy.py:37-40 | the attributes before `_get_sections`: empty title and sections |
| Cspy.CspyManager.Turn | src/precise_nlp/extract/cspy/cspy.py:76-94 | one turn of the loop on its variables gives SectionStep |
| Cspy.CspyManager.GetSections | src/precise_nlp/extract/cspy/cspy.py:66-94 | the title and sections become SectionsAfter the pieces; nothing else changes |
| Cspy.CspyManager.GetIndication | src/precise_nlp/extract/cspy/cspy.py:151-164 | gives IndicationOf the indications sections |
| Cspy.CspyManager.GetFindings | src/precise_nlp/extract/cspy/cspy.py:103-109 | gives FindingsOf for the version |
| Cspy.CspyManager.BroadLoop | src/precise_nlp/extract/cspy/cspy.py:124-133 | the loop gives BroadFrom over the finding labels |
| Cspy.CspyManager.ParseSegments | src/precise_nlp/extract/cspy/cspy.py:135-140 | the loop over one section's items gives ParseFrom |
| Cspy.CspyManager.PreciseLoop | src/precise_nlp/extract/cspy/cspy.py:117-122 | the loop gives PreciseFrom over the finding labels |
| Cspy.CspyManager.BuildSection | src/precise_nlp/extract/cspy/cspy.py:119-122 | a fresh builder over one section's items gives BuiltAll |
| Cspy.CspyManager.FindingsOfSize | src/precise_nlp/extract/cspy/cspy.py:212-223 | after a precise run `.items()` raises AttributeError; otherwise the findings of at least the size |
| Cspy.CspyManager.Finish | src/precise_nlp/extract/cspy/cspy.py:42-49 | the rest of `__init__` leaves Finished's state or raises its error |
| Cspy.CspyManager.Describe | src/precise_nlp/extract/cspy/cspy.py:43-49 | the polyp count, indication, prep and extent become Described's, or its error is raised |
| Cspy.CspyManager.Open | src/precise_nlp/extract/cspy/cspy.py:37-49 | the whole of `__init__` gives a fresh manager in Opened's state, or Opened's error |
| Algorithm.TakePy | src/precise_nlp/extract/algorithm.py:13 | Python's `xs[:n]` is the first n items, or all of them |
| Algorithm.FromPy | src/precise_nlp/extract/algorithm.py:15 | Python's `xs[w:]` for w <= 0 is everything at 0, else the last -w items |
| Algorithm.ItemsMeet | src/precise_nlp/extract/algorithm.py:16 | `s & negset` is non-empty exactly when some position holds a member |
| Algorithm.NegationAhead | src/precise_nlp/extract/algorithm.py:11-16 | with a positive window, a negation is one of the first `window` words from the match on |
| Algorithm.NegationBehind | src/precise_nlp/extract/algorithm.py:11-16 | with a negative window, a negation is one of the last -window words up to the match |
| Algorithm.IsNegated | src/precise_nlp/extract/algorithm.py:42-46 | the pre- and post-negation tests of one match give Negated |
| Algorithm.FindInSpecimen | src/precise_nlp/extract/algorithm.py:29-51 | 0 or 1; without terminate_on_negation 1 exactly when some match is not negated; with it, 1 exactly when the first match is not negated |
| Algorithm.NameValue | src/precise_nlp/extract/algorithm.py:172-179 | a count word has a value exactly when it is a key of `lkp`, from 1 to 9 |
| Algorithm.AsWrittenAgrees | src/precise_nlp/extract/algorithm.py:183-190 | where every captured count word is in lower case, the count as written equals the intended count |
| Algorithm.SpecimenAgrees | src/precise_nlp/extract/algorithm.py:186-191 | a specimen whose captured word is in lower case counts the same as written and as intended |
| Algorithm.CapitalisedCountFails | src/precise_nlp/extract/algorithm.py:183-190 | "polyps x Two" matches the case-insensitive pattern, and `lkp['Two']` raises KeyError for the report, where 2 is meant |
| Algorithm.SpecimenAdenomas | src/precise_nlp/extract/algorithm.py:185-194 | intended: no adenoma counts 0, an adenoma without a count phrase 1, a count word its value 1 to 9 in any casing; failure exactly for a word outside the table |
| Algorithm.ReportAdenomasBounds | src/precise_nlp/extract/algorithm.py:185-194 | the count lies between the number of adenoma specimens and nine times it |
| Algorithm.Bin | src/precise_nlp/extract/algorithm.py:199-202 | the index of the first cutoff above the count, or the top bin; every earlier cutoff is reached |
| Algorithm.BinCountsCutoffs | src/precise_nlp/extract/algorithm.py:199-202 | with ascending cutoffs the bin is the number of cutoffs the count reached |
| Algorithm.CutoffsUnreached | src/precise_nlp/extract/algorithm.py:199-201 | a count below every cutoff is in bin 0 |
| Algorithm.GetAdenomaCount | src/precise_nlp/extract/algorithm.py:162-202 | the summed count scored by the bins (the raw count without bins), or the first failing lookup's error |
| Algorithm.ReportKeepsError | src/precise_nlp/extract/algorithm.py:185-194 | an error in the first n specimens is the report's error |
| Algorithm.AdenomaFlags | src/precise_nlp/extract/algorithm.py:205-214 | the first flag is 1 exactly when the counter is surely above greater_than, the second 0 exactly when it is surely zero, and the counter is returned |
| Algorithm.MaybeAboveIsNo | src/precise_nlp/extract/algorithm.py:211 | a counter that may but need not be above greater_than gives first flag 0 |
| Algorithm.AdenomaCountAdvanced | src/precise_nlp/extract/algorithm.py:205-259 | the five adenoma variants give AdenomaFlags of the bucket's aggregate, one per jar or within jars |
| Algorithm.VillousAt | src/precise_nlp/extract/algorithm.py:99-108 | 1 exactly when tubulovillous or villous jars are counted at the location, else 0 |
| Algorithm.VillousSomewhere | src/precise_nlp/extract/algorithm.py:97-108 | villous histology at any one location is villous histology under ANY |
| Algorithm.VillousHistology | src/precise_nlp/extract/algorithm.py:87-110 | the two histology tallies of the jars, read at the location |
| Algorithm.FindingLocations | src/precise_nlp/extract/algorithm.py:282-285 | a finding's locations, or a single None when it has none |
| Algorithm.AddLocationsOf | src/precise_nlp/extract/algorithm.py:282-285 | one finding adds exactly its locations, or None |
| Algorithm.AddFindingLocations | src/precise_nlp/extract/algorithm.py:281-285 | the loop adds exactly the locations of the large colonoscopy findings |
| Algorithm.BroadDecision | src/precise_nlp/extract/algorithm.py:288-291 | the broad test is 0 or 1 |
| Algorithm.BroadMeets | src/precise_nlp/extract/algorithm.py:288-291 | 1 exactly when some adenoma location meets a large-polyp location: equal, or None on one side |
| Algorithm.LargeLocationsFound | src/precise_nlp/extract/algorithm.py:281-285 | a location is listed exactly when some large finding has it, None for one without locations |
| Algorithm.BroadOn | src/precise_nlp/extract/algorithm.py:279-291 | the body after the queries gives BroadOf |
| Algorithm.HasLargeAdenomaBroad | src/precise_nlp/extract/algorithm.py:271-291 | the broad decision on the read jars and the colonoscopy findings |
| Algorithm.BySizeSplits | src/precise_nlp/extract/algorithm.py:315-321 | every location of the findings lands in exactly one of the large and small lists |
| Algorithm.BySizeLarge | src/precise_nlp/extract/algorithm.py:315-326 | the large list is empty exactly when no finding is large |
| Algorithm.SortBySize | src/precise_nlp/extract/algorithm.py:313-321 | the loop gives BySize |
| Algorithm.PreciseDecision | src/precise_nlp/extract/algorithm.py:325-344 | 0, 1 or 9, and 0 without large polyps |
| Algorithm.Decide | src/precise_nlp/extract/algorithm.py:328-344 | the loop over the pathology's adenoma locations gives PreciseDecision |
| Algorithm.PreciseOf | src/precise_nlp/extract/algorithm.py:294-344 | intended: only 0, 1 or 9; 1 at once for a large pathology adenoma; 0 when no colonoscopy finding is large |
| Algorithm.PreciseAsWritten | src/precise_nlp/extract/algorithm.py:304-326 | as written, past the early exit only 0 or 1 can come back, since iterating the findings dictionary reads `.size` of a label |
| Algorithm.PreciseAsWrittenFails | src/precise_nlp/extract/algorithm.py:315-316 | an adenoma of unknown size at the cecum and a 12 mm polyp there: AttributeError as written, 1 as intended |
| Algorithm.LargeCecumSplit | src/precise_nlp/extract/algorithm.py:315-318 | a 12 mm finding at the cecum is large at 10 mm |
| Algorithm.HasLargeAdenomaPrecise | src/precise_nlp/extract/algorithm.py:294-344 | the intended precise decision on the read jars and every broad finding of the colonoscopy sections |
| Algorithm.HasLargeAdenoma | src/precise_nlp/extract/algorithm.py:262-268 | the broad decision for BROAD, the precise one for PRECISE |
| DocParser.Tally | src/precise_nlp/doc_parser.py:20-23 | a count of the matching characters is at most the token's length |
| DocParser.TokenScore | src/precise_nlp/doc_parser.py:18-73 | a token's junk score is one of 0, 1, 2, 3, 7 or 10, and only a token longer than four characters can end the scan |
| DocParser.TallyAll | src/precise_nlp/doc_parser.py:20-23 | a token all of whose characters match counts its whole length |
| DocParser.TallyNone | src/precise_nlp/doc_parser.py:20-23 | a token none of whose characters match counts 0 |
| DocParser.LowerWordStops | src/precise_nlp/doc_parser.py:25-27 | a lower-case word of more than four letters stops the scan |
| DocParser.SingleCharScores | src/precise_nlp/doc_parser.py:38-46 | one character scores 0 for a digit or 'a', 2 for 'A' and 10 otherwise |
| DocParser.Scores | src/precise_nlp/doc_parser.py:16-73 | there are at most as many scores as tokens |
| DocParser.ScoresScanned | src/precise_nlp/doc_parser.py:17-73 | the j-th score is that of the j-th token from the end, and a scan that stops short stops at a word-like token |
| DocParser.StopAt | src/precise_nlp/doc_parser.py:25-33 | a scan that stops short stops at a word-like token |
| DocParser.ScoreAt | src/precise_nlp/doc_parser.py:17-73 | the j-th score is the score of the j-th token from the end |
| DocParser.LastJunk | src/precise_nlp/doc_parser.py:74-77 | None exactly when no score reaches 5; otherwise the last position whose score reaches 5 |
| DocParser.CutKeepsClean | src/precise_nlp/doc_parser.py:78-79 | a line none of whose scanned tokens is junk comes back unchanged |
| DocParser.CutAtJunk | src/precise_nlp/doc_parser.py:74-81 | otherwise the line is cut before the junk token nearest the start of the scanned trailing run, and everything scanned before it scores below 5 |
| DocParser.JunkAt | src/precise_nlp/doc_parser.py:74-81 | the position of the cut is a junk token, and the scanned tokens before it are not junk |
| DocParser.ScanAt | src/precise_nlp/doc_parser.py:17-73 | the scan ends at the i-th token from the end exactly when that token is word-like, and scores it otherwise |
| DocParser.ScanScores | src/precise_nlp/doc_parser.py:16-73 | the backward loop gives Scores |
| DocParser.FindLineEnd | src/precise_nlp/doc_parser.py:74-77 | the loop over the scores gives LastJunk |
| DocParser.CutJunk | src/precise_nlp/doc_parser.py:8-81 | the method gives Cut |
| DocParser.RemoveOcrJunk | src/precise_nlp/doc_parser.py:5-81 | the method gives the cleaned line |
| DocParser.IndexOf | src/precise_nlp/doc_parser.py:105 | the first position of the separator, with no earlier occurrence |
| DocParser.SplitOn | src/precise_nlp/doc_parser.py:105 | `split('\n')` gives at least one piece and no piece holds the separator |
| DocParser.JoinSplitOn | src/precise_nlp/doc_parser.py:105-138 | joining the pieces with the separator gives the text back |
| DocParser.Next | src/precise_nlp/doc_parser.py:106-137 | empty lines and lines naming a doctor change nothing; a header starts an output line and leaves skip mode; a skipped line adds nothing; otherwise a line is appended, starts the output or extends its last line |
| DocParser.ReadBounded | src/precise_nlp/doc_parser.py:101-137 | the output has no more lines than the non-empty input lines not naming a doctor |
| DocParser.Turn | src/precise_nlp/doc_parser.py:108-137 | one turn of the loop on its three variables gives Next |
| DocParser.ReadSnoc | src/precise_nlp/doc_parser.py:105-106 | reading one line more is one more turn on the cleaned line |
| DocParser.Feed | src/precise_nlp/doc_parser.py:105-137 | cleaning a raw line and taking the turn gives Next on the cleaned line |
| DocParser.ParseFile | src/precise_nlp/doc_parser.py:84-138 | the method gives Parsed: the output lines of Read over the lines of the text, joined by newlines |
| Process.ColumnsDistinct | src/precise_nlp/process.py:92-97 | distinct labels give distinct `__ge` and `__num` columns, and the two kinds never collide |
| Process.SplitValues | src/precise_nlp/process.py:89-97 | each MaybeCounter gets a `__ge` column of 1 or 0 and a `__num` column of its number, less one for greater-than |
| Process.SplitOnly | src/precise_nlp/process.py:89-97 | every column made comes from a MaybeCounter value |
| Process.SplitSize | src/precise_nlp/process.py:89-97 | with distinct labels there are exactly two columns per MaybeCounter |
| Process.SplitMaybeCounters | src/precise_nlp/process.py:80-97 | the loop over the items gives Split |
| Process.CleanTruth | src/precise_nlp/process.py:259-265 | y or Y first gives 1, n or N gives 0, other strings and non-strings stay; the empty string fails |
| Process.CleanTruthIdempotent | src/precise_nlp/process.py:259-265 | cleaning a cleaned value changes nothing |
| Process.Identifiers.constructor | src/precise_nlp/process.py:286 | no label has identifiers yet |
| Process.Identifiers.AddIdentifier | src/precise_nlp/process.py:268-287 | 0 and no change for a recorded error; otherwise 1 and the identifier appended to the label's list, nothing else changing |
| Process.TalliedAt | src/precise_nlp/process.py:316-321 | each label's counter after counting is its old one plus what the items add under it |
| Process.TalliedKeys | src/precise_nlp/process.py:301-321 | counting creates a counter for every label it sees and for no other |
| Process.SameTallies | src/precise_nlp/process.py:301 | tallies with the same labels and counters are equal |
| Process.CounterCommutes | src/precise_nlp/process.py:315-321 | one label's counter does not depend on the order in which two reports are counted |
| Process.TalliedCommutes | src/precise_nlp/process.py:315-321 | counting two reports in either order gives the same tallies |
| Process.DataCounter.constructor | src/precise_nlp/process.py:300-301 | a new counter is empty |
| Process.DataCounter.Update | src/precise_nlp/process.py:315-323 | a dictionary is counted entry by entry, a string label counts its value once, anything else changes nothing |
| Process.CountAll | src/precise_nlp/process.py:317-321 | the loop gives Tallied on the counters it starts from |

## Left out

- Regular expressions are not modelled as automata. The tokeniser, the size, depth and number
  matchers, the title splitter, the finding patterns and the `\W+` splitter are all parameters or
  given matches. The properties hold for every matcher.
- Text is ASCII only. `Text.Lower`, `Text.Strip` and `Patterns.IsWordChar` cover ASCII letters,
  digits and whitespace, while Python's `str.lower`, `str.strip`, `str.split` and `\w` are Unicode.
  Non-ASCII letters and Unicode whitespace are therefore treated as other characters.
- `PathSection._preprocess`'s regex substitution (path_section.py:34-35) is not modelled. The
  section is the text after that substitution.
- The tokeniser's matches are not constrained by a type. `PathManagers.Spans` drops malformed
  spans of a tokeniser, which are then read as no words.
- `MaybeCounter` and `PolarityCounter` are values. Their in-place `add` and `set` are
  functions that return the new counter, which the owning `Jar` method assigns back. The aliasing
  in `JarManager.postprocess`, where a jar's location count is the same object as its
  `adenoma_count`, is modelled as a copy of the value at that point. A later in-place update
  reaching both objects is therefore not captured.
- `JarManager.extract_sizes` (jar_manager.py:428-440) is not part of the specimen read. As written
  it iterates the characters of a string, so every match is one character long and adds no size.
- `Cspy.Dedup` models `list(set(...))` as first-occurrence order. Python's order depends on string
  hashing, and `is_standalone` compares those lists with their order. A standalone test that
  depends on that order is fixed here to one of Python's possible outcomes.
- The algorithm decisions (`Algorithm.VillousHistology`,
  `Algorithm.HasLargeAdenomaBroad`, `Algorithm.HasLargeAdenomaPrecise`, `Algorithm.AdenomaCountAdvanced`)
  take the jars of a PathManager that has already read its report. PathManager's lazy first read and
  its errors are modelled separately, in `PathManagers.PathManager.EnsureRead` and
  `PathManagers.PathManager.ReadJars`.
- `Algorithm.HasLargeAdenoma` and `Algorithm.VillousHistology` take closed `Version` and `Location`
  datatypes, so the `ValueError` for an unknown version or location (algorithm.py:262-268, 109-110)
  cannot arise.
- The other wrappers in algorithm.py are not modelled, being thin calls into the modelled managers:
  - `get_adenoma_status`, `get_adenoma_histology`, `get_adenoma_histology_simple`;
  - `get_highgrade_dysplasia`, `get_dysplasia`, `has_dysplasia`;
  - the sessile serrated and carcinoma wrappers.
  As written, `get_carcinomas_maybe` and `get_carcinomas_in_situ_maybe` pass `probable_only` to
  PathManager methods without that parameter, and `get_dysplasia` calls a missing
  `PathManager.get_dysplasia`. All three raise, which is not modelled.
- `JarManagers.JarManager.GetCarcinomaMaybeCount`, `GetCarcinomaInSituCount` and
  `GetCarcinomaInSituMaybeCount` keep the as-written `AttributeError` for the attributes no Jar has
  (`carcinomas_possible`, `carcinomas_in_situ`, `carcinomas_in_situ_maybe`). The source gives no
  evidence of what they were meant to hold, so no intended version is modelled.
- `Jar.dysplasia` starts as `False` (jar.py:21) but is used as a PolarityCounter everywhere. The
  model starts it as the zero PolarityCounter. `check_dysplasia` returns at once on that counter,
  which is always truthy.
- `FindingBuilder.extract_location` is kept as written. It unpacks three groups into two names, so
  it always raises `ValueError`, and no intended version is modelled.
- `Process.Identifiers.AddIdentifier`: `errors` is either None or a nested dictionary of lists.
  Other shapes that Python's `except TypeError` would swallow, such as an integer, are not
  representable.
- `DataCounter.__add__` and the `DataCounter(data)` constructor with initial data are not modelled.
  `__add__` is not called by the modelled code, and it shares the counters of `self.data`.
- Counting of list items (`list.count`, `Counter`) is modelled with multisets, which drops the order
  Python keeps in a `Counter`'s keys. Dictionaries are maps or sequences of items. Where the code
  iterates a dictionary, the items are given in insertion order.
- Text.DecimalValue, FindingBuilders.Float, FindingBuilders.GroupSize, FindingBuilders.Kept, BaseFindings.HitMmValue,
  BaseFindings.SizeScan, PolypSizes.Scaled, PolypSizes.ParseGroups and Utils.DepthToLocation: Python floats are
  exact Dafny reals. The same holds for the `size` of a colonoscopy finding value. Where Python rounds to IEEE-754
  doubles, the model's `float(...)`, the 0.1 taken off or added for '<' and '>', and the factor ten for cm are exact.
  For example, `float('0.7') * 10` is 7.000000000000001 in Python and exactly 7 here. The thresholds the core tests
  (over 100 mm, at least 10 mm, the depth bands) are compared exactly. A comparison that Python's rounding would flip
  is not captured.
- Logging, `print`, file reading, pandas and the command-line entry points of process.py are not
  modelled.
- `BaseFindings.BaseFinding` takes a colonoscopy finding's `source`, but `BaseFinding.__init__`
  ignores it, so every source is None and the different-source branch of the naive merge is dead.
  This is modelled as written.
- `DocParser.ParseFile`'s patterns (skip, header, doctor, page) are parameters, as are the other
  regexes.

## Findings

| source | as written | input that shows it | evidently intended | confidence | as-written member | corrected member |
|---|---|---|---|---|---|---|
| src/precise_nlp/extract/path/path_manager.py:113-114 | `text = text[:m.start()]` then `comment = text[m.end():]` slices the already shortened text, so the comment is always empty | a block "dx: polyp. comment: benign" loses "benign" | the comment is the text after the COMMENT match in the original block | not executed | PathManagers.CommentAsWrittenEmpty, PathManagers.CommentLost | PathManagers.Comment, PathManagers.Parts |
| src/precise_nlp/extract/path/jar.py:90, src/precise_nlp/extract/path/jar_manager.py:227-233 | `add_carcinoma(term, status)` has no `in_situ` parameter, and the rule calls it with `in_situ=...` | any carcinoma mention, e.g. "adenocarcinoma", raises TypeError | `add_carcinoma` records (term, status, in_situ), as the three-name unpacking at jar_manager.py:599 reads it | not executed | Jars.AddCarcinomaAsWritten, JarWalk.CarcinomaCallFails | Jars.Jar.AddCarcinoma, JarWalk.CarcinomaArm |
| src/precise_nlp/extract/cspy/finding_patterns.py:3,53-68 | the module imports `FindingSource`, which finding_builder.py does not define, and builds `Finding(..., source=source)`, a field the dataclass lacks | loading the module raises ImportError; any matching pattern would raise TypeError | a finding is built from its groups with the dataclass's own fields | not executed | FindingPatterns.ApplyAsWrittenNeverYields, FindingPatterns.SourceKeywordFails, FindingPatterns.FromGroupsAsWritten | FindingPatterns.Apply, FindingPatterns.FromGroupsShape |
| src/precise_nlp/extract/algorithm.py:183,190 | the count pattern is case-insensitive, but `lkp[m.group(1)]` looks up the word as written in a table with lower-case keys | "tubular adenoma, polyps x Two" raises KeyError('Two') | the word is looked up in lower case, so "Two" counts 2 | not executed | Algorithm.ReportAdenomasAsWritten, Algorithm.CapitalisedCountFails | Algorithm.SpecimenAdenomas, Algorithm.GetAdenomaCount |
| src/precise_nlp/extract/algorithm.py:315-320 | `for f in cm.get_findings()` iterates the findings dictionary, so `f` is a label and `f.size` raises AttributeError; past that, the BaseFinding objects the dictionary holds define no `locations_or_none` | a pathology adenoma of unknown size at the cecum and a 12 mm colonoscopy polyp there raise AttributeError | the loop runs over the findings themselves, splitting their locations by size | not executed | Algorithm.PreciseAsWritten, Algorithm.PreciseAsWrittenFails | Algorithm.PreciseOf, Algorithm.HasLargeAdenomaPrecise |
