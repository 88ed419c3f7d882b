/**
 * PathWord: one token of a pathology section, with its position in the
 * section and the text (`spl`) between it and the next token.
 */
module PathWords {
  import opened Text

  datatype PathWord = PathWord(word: string, index: nat, spl: string)

  /** `word_lc`: the lower-cased word. */
  function WordLc(w: PathWord): string { Lower(w.word) }

  /**
   * The second argument of `isin`: a vocabulary (list, set, tuple or dict keys,
   * where `in` is membership) or a single string (where `in` is a substring test).
   */
  datatype Terms = AnyOf(keys: seq<string>) | Within(text: string)

  /** `word.isin(terms)`: the lower-cased word is in the terms. */
  predicate IsIn(w: PathWord, terms: Terms) {
    match terms
    case AnyOf(ks) => Among(WordLc(w), ks)
    case Within(s) => Contains(s, WordLc(w))
  }

  /** For a vocabulary, `isin` is membership of the lower-cased word. */
  lemma IsInVocabulary(w: PathWord, ks: seq<string>)
    ensures IsIn(w, AnyOf(ks)) <==> Lower(w.word) in ks
  {
    AmongIsIn(Lower(w.word), ks);
  }

  /** `isin` does not see the case of the word, nor its index or trailing text. */
  lemma IsInIgnoresCase(w: PathWord, v: PathWord, terms: Terms)
    requires Lower(w.word) == Lower(v.word)
    ensures IsIn(w, terms) <==> IsIn(v, terms)
  {
  }

  /** An upper-case word is found in a lower-case vocabulary. */
  lemma IsInExample()
    ensures IsIn(PathWord("Polyp", 3, " "), AnyOf(["polyps", "polyp"]))
    ensures !IsIn(PathWord("Polyp", 3, " "), AnyOf(["polyps"]))
  {
    var l := Lower("Polyp");
    assert l[0] == 'p' && l[1..] == "olyp";
    assert l == "polyp";
  }

  /** `word.endswith(*s)`: case-sensitive, on the word as written. */
  predicate EndsWithAny(w: PathWord, suffixes: seq<string>)
    decreases |suffixes|
  {
    suffixes != [] && (EndsWith(w.word, suffixes[0]) || EndsWithAny(w, suffixes[1..]))
  }

  lemma {:induction false} EndsWithAnyIff(w: PathWord, suffixes: seq<string>)
    ensures EndsWithAny(w, suffixes) <==> exists s :: s in suffixes && EndsWith(w.word, s)
    decreases |suffixes|
  {
    if suffixes != [] {
      EndsWithAnyIff(w, suffixes[1..]);
      assert suffixes == [suffixes[0]] + suffixes[1..];
    }
  }

  /**
   * `STOP.match(spl)` for the pattern `.*([:.]).*`: since `.` does not match a
   * line break, a ':' or '.' must occur before the first '\n'.
   */
  predicate StopIn(s: string)
    decreases |s|
  {
    s != [] && s[0] != '\n' && (s[0] == ':' || s[0] == '.' || StopIn(s[1..]))
  }

  predicate Stop(w: PathWord) { StopIn(w.spl) }

  /** The stop test finds a ':' or '.' with no line break before it. */
  lemma {:induction false} StopInIff(s: string)
    ensures StopIn(s) <==> exists k :: 0 <= k < |s| && (s[k] == ':' || s[k] == '.') && '\n' !in s[..k]
    decreases |s|
  {
    if s != [] {
      StopInIff(s[1..]);
      if StopIn(s) {
        if s[0] == ':' || s[0] == '.' {
          assert s[..0] == [];
        } else {
          var k :| 0 <= k < |s[1..]| && (s[1..][k] == ':' || s[1..][k] == '.') && '\n' !in s[1..][..k];
          assert s[..k + 1] == [s[0]] + s[1..][..k];
        }
      } else {
        forall k | 0 <= k < |s| && (s[k] == ':' || s[k] == '.')
          ensures '\n' in s[..k]
        {
          if s[0] != '\n' {
            assert k > 0;
            assert s[1..][k - 1] == s[k];
            assert '\n' in s[1..][..k - 1];
            assert s[..k] == [s[0]] + s[1..][..k - 1];
          } else {
            assert s[..k][0] == '\n';
          }
        }
      }
    }
  }

  /** On one line of text, a word stops a scan iff its trailing text holds ':' or '.'. */
  lemma StopOnOneLine(w: PathWord)
    requires '\n' !in w.spl
    ensures Stop(w) <==> ':' in w.spl || '.' in w.spl
  {
    StopInIff(w.spl);
    if ':' in w.spl || '.' in w.spl {
      var k :| 0 <= k < |w.spl| && (w.spl[k] == ':' || w.spl[k] == '.');
      assert '\n' !in w.spl[..k];
    }
  }

  /** `word == other` for a string: lower-cased on both sides. */
  predicate EqualsText(w: PathWord, other: string) { WordLc(w) == Lower(other) }

  /** `word == other` for a PathWord: the lower-cased words only. */
  predicate EqualsWord(w: PathWord, v: PathWord) { WordLc(w) == WordLc(v) }

  /** Equality of words is an equivalence that ignores case, index and trailing text. */
  lemma EqualsWordIsEquivalence(a: PathWord, b: PathWord, c: PathWord)
    ensures EqualsWord(a, a)
    ensures EqualsWord(a, b) ==> EqualsWord(b, a)
    ensures EqualsWord(a, b) && EqualsWord(b, c) ==> EqualsWord(a, c)
    ensures EqualsWord(a, PathWord(Lower(a.word), b.index, b.spl))
  {
    LowerIdempotent(a.word);
  }

  /** Comparing with a string is the same as comparing with a word spelling it. */
  lemma EqualsTextIsEqualsWord(w: PathWord, other: string, i: nat, spl: string)
    ensures EqualsText(w, other) <==> EqualsWord(w, PathWord(other, i, spl))
    ensures EqualsText(w, other) <==> EqualsText(w, Lower(other))
  {
    LowerIdempotent(other);
  }

  /** `other in word`: a case-insensitive substring test. */
  predicate ContainsText(w: PathWord, other: string) { Contains(WordLc(w), Lower(other)) }

  lemma ContainsTextIgnoresCase(w: PathWord, other: string)
    ensures ContainsText(w, other) <==> ContainsText(w, Lower(other))
    ensures ContainsText(w, other) <==> ContainsText(PathWord(Lower(w.word), w.index, w.spl), other)
  {
    LowerIdempotent(other);
    LowerIdempotent(w.word);
  }
}
