/**
 * The OCR clean-up of colonoscopy reports (`doc_parser.py`): a trimmer that
 * cuts the junk OCR leaves at the end of a line, and the line state machine
 * of `parse_file` that keeps the procedure and findings text and drops
 * demographics, doctors' names and page furniture.
 */
module DocParser {
  import opened Wrappers
  import opened Text

  // ---------------------------------------------------------------- remove_ocr_junk

  /** The number of characters of t that satisfy p. */
  function Tally(t: string, p: char -> bool): (r: nat)
    ensures r <= |t|
  {
    if t == [] then 0 else (if p(t[|t| - 1]) then 1 else 0) + Tally(t[..|t| - 1], p)
  }

  /** Every token of the list is non-empty (as `str.split()` yields them). */
  predicate NonEmpty(tokens: seq<string>) { forall i :: 0 <= i < |tokens| ==> tokens[i] != [] }

  /**
   * The junk score of one token (higher is more junk-like), or None for a
   * word-like token longer than four characters, which ends the scan.
   * Letters and digits are ASCII; the trailing-punctuation flag is 1 when
   * the token ends in '.' or ','.
   */
  function TokenScore(t: string): (r: Option<nat>)
    requires t != []
    ensures r.Some? ==> r.value in {0, 1, 2, 3, 7, 10}
    ensures r.None? ==> |t| > 4
  {
    var size := |t|;
    var up := Tally(t, IsUpper);
    var lw := Tally(t, IsLower);
    var nums := Tally(t, IsDigit);
    var punct := if t[|t| - 1] == '.' || t[|t| - 1] == ',' then 1 else 0;
    if size > 4 then
      if size - lw - up - punct == 0 && up <= 1 then None
      else if nums >= size - 1 then None
      else if size > 5 && lw + up + punct >= size - 1 then None
      else if size > 6 && lw + up + punct >= size - 2 then None
      else Some(10)
    else if size == 1 then
      if nums == 1 then Some(0)
      else if t == "a" then Some(0)
      else if t == "A" then Some(2)
      else Some(10)
    else if size == 2 then
      if nums == 2 then Some(0)
      else if nums == 1 && (up + lw == 1 || punct == 1) then Some(2)
      else if Lower(t) in ["in", "an", "on", "or", "no", "it", "to", "by", "of"] then Some(1)
      else Some(10)
    else if size == 3 then
      if nums == 3 then Some(0)
      else if Lower(t) in ["its", "the", "and", "was"] then Some(0)
      else Some(10)
    else
      if nums == 3 || nums == 4 then Some(3)
      else if lw + punct + up == size && up <= 1 then Some(0)
      else if lw == 0 then Some(7)
      else if lw == size - 1 then Some(3)
      else Some(10)
  }

  lemma TallyAll(t: string, p: char -> bool)
    requires forall i :: 0 <= i < |t| ==> p(t[i])
    ensures Tally(t, p) == |t|
  {
    if t != [] {
      TallyAll(t[..|t| - 1], p);
    }
  }

  lemma TallyNone(t: string, p: char -> bool)
    requires forall i :: 0 <= i < |t| ==> !p(t[i])
    ensures Tally(t, p) == 0
  {
    if t != [] {
      TallyNone(t[..|t| - 1], p);
    }
  }

  /** A lower-case word longer than four letters is word-like: it ends the scan. */
  lemma {:induction false} LowerWordStops(t: string)
    requires |t| > 4 && forall i :: 0 <= i < |t| ==> IsLower(t[i])
    ensures TokenScore(t).None?
  {
    TallyAll(t, IsLower);
    TallyNone(t, IsUpper);
  }

  /** A single character scores 0 for a digit or 'a', 2 for 'A' and 10 otherwise. */
  lemma SingleCharScores(c: char)
    ensures TokenScore([c]) == Some(if IsDigit(c) || c == 'a' then 0 else if c == 'A' then 2 else 10)
  {
    assert [c][..0] == [];
  }

  /** The scores of the trailing tokens, last token first, up to the first word-like one. */
  function Scores(tokens: seq<string>): (r: seq<nat>)
    requires NonEmpty(tokens)
    ensures |r| <= |tokens|
  {
    if tokens == [] then []
    else
      match TokenScore(tokens[|tokens| - 1])
      case None => []
      case Some(s) => [s] + Scores(tokens[..|tokens| - 1])
  }

  /**
   * The scan scores the trailing tokens in order from the last, and when it
   * stops short, the token it stopped at is word-like.
   */
  lemma ScoresScanned(tokens: seq<string>)
    requires NonEmpty(tokens)
    ensures forall j :: 0 <= j < |Scores(tokens)| ==> TokenScore(tokens[|tokens| - 1 - j]) == Some(Scores(tokens)[j])
    ensures |Scores(tokens)| < |tokens| ==> TokenScore(tokens[|tokens| - 1 - |Scores(tokens)|]).None?
  {
    forall j | 0 <= j < |Scores(tokens)|
      ensures TokenScore(tokens[|tokens| - 1 - j]) == Some(Scores(tokens)[j])
    {
      ScoreAt(tokens, j);
    }
    StopAt(tokens);
  }

  /** When the scan stops short, the token it stopped at is word-like. */
  lemma {:induction false} StopAt(tokens: seq<string>)
    requires NonEmpty(tokens)
    ensures |Scores(tokens)| < |tokens| ==> TokenScore(tokens[|tokens| - 1 - |Scores(tokens)|]).None?
  {
    if tokens != [] && TokenScore(tokens[|tokens| - 1]).Some? {
      var front := tokens[..|tokens| - 1];
      StopAt(front);
      assert |Scores(tokens)| == |Scores(front)| + 1;
      if |Scores(front)| < |front| {
        assert front[|front| - 1 - |Scores(front)|] == tokens[|tokens| - 1 - |Scores(tokens)|];
      }
    }
  }

  /** The j-th score is the score of the j-th token from the end. */
  lemma {:induction false} ScoreAt(tokens: seq<string>, j: nat)
    requires NonEmpty(tokens) && j < |Scores(tokens)|
    ensures TokenScore(tokens[|tokens| - 1 - j]) == Some(Scores(tokens)[j])
  {
    if j > 0 {
      var front := tokens[..|tokens| - 1];
      ScoreAt(front, j - 1);
      assert front[|front| - 1 - (j - 1)] == tokens[|tokens| - 1 - j];
    }
  }

  /** `line_end`: the last position of a score of at least 5. */
  function LastJunk(scores: seq<nat>): (r: Option<nat>)
    ensures r.None? <==> forall j :: 0 <= j < |scores| ==> scores[j] < 5
    ensures r.Some? ==> r.value < |scores| && scores[r.value] >= 5
    ensures r.Some? ==> forall j :: r.value < j < |scores| ==> scores[j] < 5
  {
    if scores == [] then None
    else if scores[|scores| - 1] >= 5 then Some(|scores| - 1)
    else LastJunk(scores[..|scores| - 1])
  }

  /** The line with "The Colon" removed when asked. */
  function Decolonised(line: string, removeColon: bool): string
  {
    if removeColon then ReplaceAll(line, "The Colon", "") else line
  }

  /**
   * The cut of a line split into tokens: unchanged when no scanned token
   * scores 5 or more, else the tokens before the earliest such token of the
   * scanned run, joined by single spaces.
   */
  function CutOf(l: string, tokens: seq<string>): string
    requires NonEmpty(tokens)
  {
    var e := LastJunk(Scores(tokens));
    if e.None? then l else Join(tokens[..|tokens| - (e.value + 1)], " ")
  }

  /** The cut of a line on its whitespace-separated tokens. */
  function Cut(l: string): string
  {
    CutOf(l, SplitWhitespace(l))
  }

  /** `remove_ocr_junk(line, remove_colon)`. */
  function Trimmed(line: string, removeColon: bool): string
  {
    Cut(Decolonised(line, removeColon))
  }

  /** The cut keeps the line when no scanned token is junk. */
  lemma CutKeepsClean(l: string, tokens: seq<string>)
    requires NonEmpty(tokens) && forall j :: 0 <= j < |Scores(tokens)| ==> Scores(tokens)[j] < 5
    ensures CutOf(l, tokens) == l
  {
  }

  /**
   * Otherwise the cut is at a junk token k of the scanned trailing run: the
   * tokens of the run before k score less than 5, and the result is the
   * tokens before k.
   */
  lemma CutAtJunk(l: string, tokens: seq<string>)
    requires NonEmpty(tokens) && exists j :: 0 <= j < |Scores(tokens)| && Scores(tokens)[j] >= 5
    ensures exists k ::
      && |tokens| - |Scores(tokens)| <= k < |tokens|
      && TokenScore(tokens[k]).Some? && TokenScore(tokens[k]).value >= 5
      && (forall m :: |tokens| - |Scores(tokens)| <= m < k ==>
            TokenScore(tokens[m]).Some? && TokenScore(tokens[m]).value < 5)
      && CutOf(l, tokens) == Join(tokens[..k], " ")
  {
    var e := LastJunk(Scores(tokens));
    var k := |tokens| - 1 - e.value;
    JunkAt(tokens, e.value);
    assert |tokens| - (e.value + 1) == k;
    assert CutOf(l, tokens) == Join(tokens[..k], " ");
  }

  /** The junk position the cut uses, read back on the tokens. */
  lemma JunkAt(tokens: seq<string>, e: nat)
    requires NonEmpty(tokens) && LastJunk(Scores(tokens)) == Some(e)
    ensures var k := |tokens| - 1 - e;
      |tokens| - |Scores(tokens)| <= k < |tokens| &&
      TokenScore(tokens[k]).Some? && TokenScore(tokens[k]).value >= 5 &&
      (forall m :: |tokens| - |Scores(tokens)| <= m < k ==>
        TokenScore(tokens[m]).Some? && TokenScore(tokens[m]).value < 5)
  {
    var scores := Scores(tokens);
    var k := |tokens| - 1 - e;
    ScoreAt(tokens, e);
    forall m | |tokens| - |scores| <= m < k
      ensures TokenScore(tokens[m]).Some? && TokenScore(tokens[m]).value < 5
    {
      var j := |tokens| - 1 - m;
      assert e < j < |scores|;
      ScoreAt(tokens, j);
    }
  }

  /** The scan at the i-th token from the end, when it has come that far. */
  lemma ScanAt(tokens: seq<string>, i: nat)
    requires NonEmpty(tokens) && i < |tokens| && i <= |Scores(tokens)|
    ensures TokenScore(tokens[|tokens| - 1 - i]).None? <==> |Scores(tokens)| == i
    ensures TokenScore(tokens[|tokens| - 1 - i]).Some? ==>
      |Scores(tokens)| > i && Scores(tokens)[i] == TokenScore(tokens[|tokens| - 1 - i]).value
  {
    if i < |Scores(tokens)| {
      ScoreAt(tokens, i);
    } else {
      StopAt(tokens);
    }
  }

  /** The backward scan over the tokens, stopping at the first word-like one. */
  method ScanScores(tokens: seq<string>) returns (scores: seq<nat>)
    requires NonEmpty(tokens)
    ensures scores == Scores(tokens)
  {
    ghost var full := Scores(tokens);
    scores := [];
    var i := 0;
    while i < |tokens|
      invariant i <= |tokens| && i <= |full|
      invariant scores == full[..i]
    {
      ScanAt(tokens, i);
      var s := TokenScore(tokens[|tokens| - 1 - i]);
      if s.None? {
        assert full[..i] == full;
        return;
      }
      scores := scores + [s.value];
      i := i + 1;
      assert full[..i] == full[..i - 1] + [full[i - 1]];
    }
    assert full[..i] == full;
  }

  /** The loop over the scores keeping the last position of a junk score. */
  method FindLineEnd(scores: seq<nat>) returns (lineEnd: Option<nat>)
    ensures lineEnd == LastJunk(scores)
  {
    lineEnd := None;
    var i := 0;
    while i < |scores|
      invariant i <= |scores|
      invariant lineEnd == LastJunk(scores[..i])
    {
      assert scores[..i + 1][..i] == scores[..i];
      if scores[i] >= 5 {
        lineEnd := Some(i);
      }
      i := i + 1;
    }
    assert scores[..i] == scores;
  }

  /** The cut of a line, as the code computes it. */
  method CutJunk(l: string) returns (r: string)
    ensures r == Cut(l)
  {
    var tokens := SplitWhitespace(l);
    var scores := ScanScores(tokens);
    var lineEnd := FindLineEnd(scores);
    if lineEnd.None? {
      return l;
    }
    r := Join(tokens[..|tokens| - (lineEnd.value + 1)], " ");
  }

  /** `remove_ocr_junk(line, remove_colon)`. */
  method RemoveOcrJunk(line: string, removeColon: bool) returns (r: string)
    ensures r == Trimmed(line, removeColon)
  {
    var l := line;
    if removeColon {
      l := ReplaceAll(line, "The Colon", "");
    }
    r := CutJunk(l);
  }

  // ---------------------------------------------------------------- parse_file

  /** The first position of c in s. */
  function IndexOf(s: string, c: char): (i: nat)
    requires c in s
    ensures i < |s| && s[i] == c && c !in s[..i]
  {
    if s[0] == c then 0 else 1 + IndexOf(s[1..], c)
  }

  /** `s.split(c)` for one separator character. */
  function SplitOn(s: string, c: char): (r: seq<string>)
    ensures |r| >= 1
    ensures forall i :: 0 <= i < |r| ==> c !in r[i]
    decreases |s|
  {
    if c !in s then [s]
    else
      var i := IndexOf(s, c);
      [s[..i]] + SplitOn(s[i + 1..], c)
  }

  /** Joining the pieces with the separator gives the text back. */
  lemma {:induction false} JoinSplitOn(s: string, c: char)
    ensures Join(SplitOn(s, c), [c]) == s
    decreases |s|
  {
    if c in s {
      var i := IndexOf(s, c);
      var rest := SplitOn(s[i + 1..], c);
      JoinSplitOn(s[i + 1..], c);
      JoinCons(s[..i], rest, [c]);
      assert s == s[..i] + [c] + s[i + 1..];
    }
  }

  lemma JoinCons(a: string, rest: seq<string>, sep: string)
    requires rest != []
    ensures Join([a] + rest, sep) == a + sep + Join(rest, sep)
  {
    assert ([a] + rest)[1..] == rest;
  }

  /**
   * The line patterns of `parse_file`, as functions: `skip_pat`, `md_pat`
   * and `page_pat` searched anywhere, `no_page_pat` and `header_pat` matched
   * at the start, and the split on non-letters (`word_pat`).
   */
  datatype LinePatterns = LinePatterns(
    skip: string -> bool,
    md: string -> bool,
    page: string -> bool,
    noPage: string -> bool,
    header: string -> bool,
    words: string -> seq<string>)

  /** The words whose presence marks a findings line on a later page. */
  const Keywords: set<string> := {"cecum", "polyp", "size", "found", "adenoma", "colon"}

  /** The state of the line loop: the output lines and the two flags. */
  datatype Reading = Reading(lines: seq<string>, foundStart: bool, skipMode: bool)

  /** The state before the first line. */
  const Start := Reading([], false, true)

  predicate PageLine(pt: LinePatterns, hasPage: bool, l: string)
  {
    (hasPage && pt.page(l)) || (!hasPage && pt.noPage(l))
  }

  /** A line that reaches the header test: not empty, no doctor, no skip marker, no page number. */
  predicate Plain(pt: LinePatterns, hasPage: bool, l: string)
  {
    l != "" && !pt.md(l) && !pt.skip(l) && !PageLine(pt, hasPage, l)
  }

  /** The lower-cased words of a line (`[x.lower() for x in word_pat.split(line)]`). */
  function LowerWords(pt: LinePatterns, l: string): seq<string>
  {
    var ws := pt.words(l);
    seq(|ws|, i requires 0 <= i < |ws| => Lower(ws[i]))
  }

  /** At least eleven words or a keyword: the line reads as the start of findings. */
  predicate StartsFindings(pt: LinePatterns, l: string)
  {
    var ws := LowerWords(pt, l);
    |ws| > 10 || exists i :: 0 <= i < |ws| && ws[i] in Keywords
  }

  /** The lines with l appended to the last one. */
  function Extended(lines: seq<string>, l: string): seq<string>
    requires lines != []
  {
    lines[..|lines| - 1] + [lines[|lines| - 1] + " " + l]
  }

  /**
   * One turn of the loop on a cleaned line. Empty lines and lines naming a
   * doctor change nothing; a header starts an output line and leaves skip
   * mode; in skip mode other lines are dropped; otherwise a line extends the
   * last output line (or becomes the first).
   */
  function Next(pt: LinePatterns, hasPage: bool, st: Reading, l: string): (st': Reading)
    ensures l == "" || pt.md(l) ==> st' == st
    ensures Plain(pt, hasPage, l) && pt.header(l) ==> st'.lines == st.lines + [l] && st'.foundStart && !st'.skipMode
    ensures Plain(pt, hasPage, l) && !pt.header(l) && st.skipMode && (st.foundStart || st.lines == []) ==>
      st'.lines == st.lines
    ensures st'.lines == st.lines || st'.lines == st.lines + [l] || (st.lines != [] && st'.lines == Extended(st.lines, l))
    ensures |st'.lines| <= |st.lines| + (if l == "" || pt.md(l) then 0 else 1)
  {
    if l == "" then st
    else if pt.md(l) then st
    else if pt.skip(l) then st.(skipMode := true)
    else if PageLine(pt, hasPage, l) then st.(foundStart := false, skipMode := false)
    else if pt.header(l) then Reading(st.lines + [l], true, false)
    else if !st.foundStart && st.lines != [] then
      if StartsFindings(pt, l) then Reading(Extended(st.lines, l), true, false) else st
    else if st.skipMode then st
    else if st.lines != [] then st.(lines := Extended(st.lines, l))
    else st.(lines := [l])
  }

  /** The loop over the raw lines, each cleaned by the trimmer first. */
  function Read(pt: LinePatterns, hasPage: bool, raws: seq<string>): Reading
  {
    if raws == [] then Start
    else Next(pt, hasPage, Read(pt, hasPage, raws[..|raws| - 1]), Trimmed(raws[|raws| - 1], true))
  }

  /** The number of raw lines that survive as non-empty cleaned lines without a doctor's name. */
  function Kept(pt: LinePatterns, raws: seq<string>): nat
  {
    if raws == [] then 0
    else
      var l := Trimmed(raws[|raws| - 1], true);
      Kept(pt, raws[..|raws| - 1]) + (if l == "" || pt.md(l) then 0 else 1)
  }

  /** The output never has more lines than the input's kept lines. */
  lemma {:induction false} ReadBounded(pt: LinePatterns, hasPage: bool, raws: seq<string>)
    ensures |Read(pt, hasPage, raws).lines| <= Kept(pt, raws) <= |raws|
  {
    if raws != [] {
      ReadBounded(pt, hasPage, raws[..|raws| - 1]);
    }
  }

  /** `parse_file(text)` as a value: the output lines joined by newlines. */
  function Parsed(pt: LinePatterns, text: string): string
  {
    Join(Read(pt, pt.page(text), SplitOn(text, '\n')).lines, "\n")
  }

  /** One turn of the loop on the cleaned line. */
  method Turn(pt: LinePatterns, hasPage: bool, lines: seq<string>, foundStart: bool, skipMode: bool, line: string)
    returns (lines': seq<string>, foundStart': bool, skipMode': bool)
    ensures Reading(lines', foundStart', skipMode') == Next(pt, hasPage, Reading(lines, foundStart, skipMode), line)
  {
    lines', foundStart', skipMode' := lines, foundStart, skipMode;
    if line == "" {
      return;
    } else if pt.md(line) {
      return;
    } else if pt.skip(line) {
      skipMode' := true;
    } else if (hasPage && pt.page(line)) || (!hasPage && pt.noPage(line)) {
      foundStart' := false;
      skipMode' := false;
    } else if pt.header(line) {
      skipMode' := false;
      foundStart' := true;
      lines' := lines + [line];
    } else if !foundStart && lines != [] {
      var words := LowerWords(pt, line);
      if |words| > 10 || (exists i :: 0 <= i < |words| && words[i] in Keywords) {
        foundStart' := true;
        skipMode' := false;
        lines' := lines[..|lines| - 1] + [lines[|lines| - 1] + " " + line];
      }
    } else if skipMode {
      return;
    } else {
      if lines != [] {
        lines' := lines[..|lines| - 1] + [lines[|lines| - 1] + " " + line];
      } else {
        lines' := [line];
      }
    }
  }

  lemma ReadSnoc(pt: LinePatterns, hasPage: bool, raws: seq<string>, i: nat)
    requires i < |raws|
    ensures Read(pt, hasPage, raws[..i + 1]) == Next(pt, hasPage, Read(pt, hasPage, raws[..i]), Trimmed(raws[i], true))
  {
    assert raws[..i + 1][..i] == raws[..i];
  }

  /** One turn of the loop on a raw line: clean it, then take the turn. */
  method Feed(pt: LinePatterns, hasPage: bool, lines: seq<string>, foundStart: bool, skipMode: bool, raw: string)
    returns (lines': seq<string>, foundStart': bool, skipMode': bool)
    ensures Reading(lines', foundStart', skipMode') == Next(pt, hasPage, Reading(lines, foundStart, skipMode), Trimmed(raw, true))
  {
    var line := RemoveOcrJunk(raw, true);
    lines', foundStart', skipMode' := Turn(pt, hasPage, lines, foundStart, skipMode, line);
  }

  /** `parse_file(text)`. */
  method ParseFile(pt: LinePatterns, text: string) returns (r: string)
    ensures r == Parsed(pt, text)
  {
    var raws := SplitOn(text, '\n');
    var hasPage := pt.page(text);
    var lines: seq<string> := [];
    var foundStart := false;
    var skipMode := true;
    var i := 0;
    while i < |raws|
      invariant i <= |raws|
      invariant Reading(lines, foundStart, skipMode) == Read(pt, hasPage, raws[..i])
    {
      ReadSnoc(pt, hasPage, raws, i);
      lines, foundStart, skipMode := Feed(pt, hasPage, lines, foundStart, skipMode, raws[i]);
      i := i + 1;
    }
    assert raws[..i] == raws;
    r := Join(lines, "\n");
  }
}
