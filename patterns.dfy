/**
 * The two number patterns the rule walk applies to a single word:
 * `NUMBER_PATTERN = (\d{1,3}(?:\.\d{,2})?)` and
 * `DEPTH_PATTERN = (\d{1,3}(?:\.\d{,2})?)\W*[cm]m` (case-insensitive),
 * both used with `match`, i.e. anchored at the start of the word.
 */
module Patterns {
  import opened Wrappers
  import opened Text

  /** The length of the run of digits at the start of s, at most n. */
  function DigitRun(s: string, n: nat): (r: nat)
    ensures r <= n && r <= |s| && AllDigits(s[..r])
    ensures r < n && r < |s| ==> !IsDigit(s[r])
    decreases n
  {
    if n == 0 || s == [] || !IsDigit(s[0]) then 0
    else
      var k := DigitRun(s[1..], n - 1);
      assert s[..k + 1] == [s[0]] + s[1..][..k];
      k + 1
  }

  /**
   * Where a match of NUMBER_PATTERN at the start of s ends: one to three
   * digits, then optionally a '.' and up to two more digits (greedy).
   */
  function NumberEnd(s: string): (r: Option<nat>)
    ensures r.Some? ==> 0 < r.value <= |s| && IsDigit(s[0])
    ensures r.None? <==> s == [] || !IsDigit(s[0])
  {
    var w := DigitRun(s, 3);
    if w == 0 then None
    else if w < |s| && s[w] == '.' then Some(w + 1 + DigitRun(s[w + 1..], 2))
    else Some(w)
  }

  /** `s.find('.')` in digits followed by a '.' is the position of that '.'. */
  lemma {:induction false} FindDotAfterDigits(t: string, w: nat)
    requires w < |t| && AllDigits(t[..w]) && t[w] == '.'
    ensures Find(t, ".") == Some(w)
    decreases w
  {
    if w == 0 {
      assert StartsWith(t, ".");
    } else {
      assert t[..w][0] == t[0];
      assert !StartsWith(t, ".");
      assert t[1..][..w - 1] == t[..w][1..];
      FindDotAfterDigits(t[1..], w - 1);
    }
  }

  /** `float(NUMBER_PATTERN.match(s).group(1))`, or None when the pattern does not match. */
  function NumberValue(s: string): (r: Option<real>)
    ensures r.Some? <==> NumberEnd(s).Some?
    ensures r.Some? ==> r == DecimalValue(s[..NumberEnd(s).value])
  {
    match NumberEnd(s)
      case None => None
      case Some(e) =>
        var w := DigitRun(s, 3);
        var t := s[..e];
        if e == w then
          assert t == s[..w];
          DecimalValue(t)
        else
          assert t[..w] == s[..w] && t[w] == '.';
          FindDotAfterDigits(t, w);
          assert t[w + 1..] == s[w + 1..][..DigitRun(s[w + 1..], 2)];
          DecimalValue(t)
  }

  /** Python's `\w` on ASCII text. */
  predicate IsWordChar(c: char) { IsAlpha(c) || IsDigit(c) || c == '_' }

  /** The length of the run of non-word characters (`\W*`) at the start of s. */
  function NonWordRun(s: string): (r: nat)
    ensures r <= |s| && forall i :: 0 <= i < r ==> !IsWordChar(s[i])
    ensures r < |s| ==> IsWordChar(s[r])
  {
    if s == [] || IsWordChar(s[0]) then 0 else 1 + NonWordRun(s[1..])
  }

  /**
   * `DEPTH_PATTERN.match(s)`: a number, non-word characters, then 'cm' or 'mm'
   * in any case. Backtracking cannot help a failed greedy number: a shorter
   * number leaves a digit or a '.' followed by a digit, which `\W*[cm]` rejects.
   */
  predicate DepthMatches(s: string) {
    match NumberEnd(s)
      case None => false
      case Some(e) =>
        var k := e + NonWordRun(s[e..]);
        k + 1 < |s| && s[k] in "cCmM" && s[k + 1] in "mM"
  }

  /** The depth pattern only matches where the number pattern does. */
  lemma DepthHasNumber(s: string)
    requires DepthMatches(s)
    ensures NumberValue(s).Some?
  {
  }

  /** "15cm" is a depth; a bare number is not. */
  lemma DepthExamples()
    ensures DepthMatches("15cm") && !DepthMatches("15")
  {
    assert "15cm"[1..] == "5cm" && "5cm"[1..] == "cm";
    assert DigitRun("15cm", 3) == 2;
    assert "15cm"[2..] == "cm" && NonWordRun("cm") == 0;
    assert "15"[1..] == "5" && "5"[1..] == "";
    assert DigitRun("15", 3) == 2;
  }

  /** The length of the run of word characters (`\w*`) at the start of s. */
  function WordCharRun(s: string): (r: nat)
    ensures r <= |s| && forall i :: 0 <= i < r ==> IsWordChar(s[i])
    ensures r < |s| ==> !IsWordChar(s[r])
  {
    if s == [] || !IsWordChar(s[0]) then 0 else 1 + WordCharRun(s[1..])
  }

  /**
   * `re.split(r'\W+', s)`: the pieces between maximal runs of non-word
   * characters, with an empty first (last) piece when s starts (ends) with one.
   */
  function SplitNonWord(s: string): (r: seq<string>)
    ensures |r| >= 1
    ensures forall i :: 0 <= i < |r| ==> forall j :: 0 <= j < |r[i]| ==> IsWordChar(r[i][j])
    decreases |s|
  {
    var w := WordCharRun(s);
    if w == |s| then [s]
    else
      var n := NonWordRun(s[w..]);
      [s[..w]] + SplitNonWord(s[w..][n..])
  }

  /** "a b" splits into its two words; " a." has an empty piece at each end. */
  lemma SplitNonWordExamples()
    ensures SplitNonWord("a b") == ["a", "b"]
    ensures SplitNonWord(" a.") == ["", "a", ""]
  {
    assert WordCharRun("b") == 1 by { assert "b"[1..] == ""; }
    assert SplitNonWord("b") == ["b"];
    assert WordCharRun("a b") == 1 by { assert "a b"[1..] == " b"; }
    assert NonWordRun(" b") == 1 by { assert " b"[1..] == "b"; }
    assert "a b"[1..][1..] == "b" && "a b"[..1] == "a";
    assert SplitNonWord("a b") == ["a"] + SplitNonWord("b");
    assert SplitNonWord("") == [""];
    assert WordCharRun(".") == 0 && NonWordRun(".") == 1;
    assert "."[0..][1..] == "";
    assert SplitNonWord(".") == [""] + SplitNonWord("");
    assert WordCharRun("a.") == 1 by { assert "a."[1..] == "."; }
    assert "a."[1..] == "." && "."[1..] == "" && "a."[..1] == "a";
    assert SplitNonWord("a.") == ["a"] + SplitNonWord("");
    assert WordCharRun(" a.") == 0;
    assert NonWordRun(" a.") == 1 by { assert " a."[1..] == "a."; }
    assert " a."[0..][1..] == "a.";
    assert SplitNonWord(" a.") == [""] + SplitNonWord("a.");
  }
}
