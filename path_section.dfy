/**
 * PathSection: a pathology section as a sequence of PathWords with a cursor
 * (`curr`), and the bounded look-behind / look-ahead queries that the rule
 * walk asks of the word under the cursor.
 */
module PathSections {
  import opened Wrappers
  import opened Text
  import opened PathWords

  /** The [start, end) offsets of one tokeniser match. */
  type Span = (nat, nat)

  /** The matches of a tokeniser over `text`: non-empty, in order, not overlapping. */
  predicate SpansOk(text: string, spans: seq<Span>) {
    (forall i :: 0 <= i < |spans| ==> spans[i].0 < spans[i].1 <= |text|) &&
    (forall i :: 0 <= i < |spans| - 1 ==> spans[i].1 <= spans[i + 1].0)
  }

  /** Where the trailing text of token i ends: the next match, or the end of the text. */
  function SplEnd(text: string, spans: seq<Span>, i: nat): (r: nat)
    requires SpansOk(text, spans) && i < |spans|
    ensures spans[i].1 <= r <= |text|
  {
    if i + 1 < |spans| then spans[i + 1].0 else |text|
  }

  /** The token built for match i. */
  function Token(text: string, spans: seq<Span>, i: nat): PathWord
    requires SpansOk(text, spans) && i < |spans|
  {
    PathWord(text[spans[i].0..spans[i].1], i, text[spans[i].1..SplEnd(text, spans, i)])
  }

  /** The tokens of a section: one per match, numbered 0 .. n-1 in order. */
  function Tokenize(text: string, spans: seq<Span>): (r: seq<PathWord>)
    requires SpansOk(text, spans)
    ensures |r| == |spans|
    ensures forall i :: 0 <= i < |r| ==> r[i].index == i && r[i].word != []
  {
    seq(|spans|, i requires 0 <= i < |spans| => Token(text, spans, i))
  }

  /** The words with their trailing texts, put back together. */
  function Rebuild(ws: seq<PathWord>): string
  {
    if ws == [] then [] else ws[0].word + ws[0].spl + Rebuild(ws[1..])
  }

  /** Tokenising loses nothing: from the first word on, the tokens spell the text. */
  lemma {:induction false} TokenizeRebuilds(text: string, spans: seq<Span>, k: nat)
    requires SpansOk(text, spans) && k < |spans|
    ensures Rebuild(Tokenize(text, spans)[k..]) == text[spans[k].0..]
    decreases |spans| - k
  {
    var ws := Tokenize(text, spans);
    var s, e, n := spans[k].0, spans[k].1, SplEnd(text, spans, k);
    assert ws[k..][1..] == ws[k + 1..];
    if k + 1 < |spans| {
      TokenizeRebuilds(text, spans, k + 1);
      assert text[s..] == text[s..e] + text[e..n] + text[n..];
    } else {
      assert ws[k + 1..] == [];
      assert text[s..] == text[s..e] + text[e..n];
    }
  }

  /** Python's end index of a slice `[...:e]` over n items, for an e that may be negative. */
  function SliceEnd(e: int, n: nat): (r: nat)
    ensures r <= n
  {
    if e < 0 then (if n + e < 0 then 0 else n + e) else if e > n then n else e
  }

  /** `ws[lo:hi]` for 0 <= lo and hi <= |ws|. */
  function Window(ws: seq<PathWord>, lo: nat, hi: nat): (r: seq<PathWord>)
    requires hi <= |ws|
    ensures |r| == if lo < hi then hi - lo else 0
    ensures forall k :: 0 <= k < |r| ==> r[k] == ws[lo + k]
  {
    if lo < hi then ws[lo..hi] else []
  }

  /** A word ends a scan when stops are honoured and its trailing text stops. */
  predicate Blocks(w: PathWord, allowStop: bool) { allowStop && Stop(w) }

  /**
   * The look-behind: the nearest word first, giving up at a stop word
   * (checked before the term) and returning the first word in the terms.
   */
  function ScanBack(ws: seq<PathWord>, terms: Terms, allowStop: bool): (r: Option<PathWord>)
    ensures r.Some? ==> r.value in ws && IsIn(r.value, terms)
    decreases |ws|
  {
    if ws == [] then None
    else
      var w := ws[|ws| - 1];
      if Blocks(w, allowStop) then None
      else if IsIn(w, terms) then Some(w)
      else ScanBack(ws[..|ws| - 1], terms, allowStop)
  }

  /** Position k is what the look-behind finds: a clear run from the end down to a hit. */
  predicate BackHit(ws: seq<PathWord>, terms: Terms, allowStop: bool, k: int) {
    0 <= k < |ws| && IsIn(ws[k], terms) && !Blocks(ws[k], allowStop) &&
    forall j :: k < j < |ws| ==> !IsIn(ws[j], terms) && !Blocks(ws[j], allowStop)
  }

  /** The look-behind returns a word exactly at the nearest hit with no stop word after it. */
  lemma {:induction false} ScanBackFindsNearest(ws: seq<PathWord>, terms: Terms, allowStop: bool)
    ensures forall k :: BackHit(ws, terms, allowStop, k) ==> ScanBack(ws, terms, allowStop) == Some(ws[k])
    ensures ScanBack(ws, terms, allowStop).Some? ==>
      exists k :: BackHit(ws, terms, allowStop, k) && ScanBack(ws, terms, allowStop) == Some(ws[k])
    decreases |ws|
  {
    if ws != [] {
      var last := |ws| - 1;
      var front := ws[..last];
      ScanBackFindsNearest(front, terms, allowStop);
      assert forall j :: 0 <= j < last ==> front[j] == ws[j];
      if !Blocks(ws[last], allowStop) && !IsIn(ws[last], terms) {
        forall k | BackHit(ws, terms, allowStop, k)
          ensures BackHit(front, terms, allowStop, k)
        {
        }
        if ScanBack(ws, terms, allowStop).Some? {
          var k :| BackHit(front, terms, allowStop, k) && ScanBack(front, terms, allowStop) == Some(front[k]);
          assert BackHit(ws, terms, allowStop, k);
        }
      } else {
        assert ScanBack(ws, terms, allowStop).Some? ==> BackHit(ws, terms, allowStop, last);
      }
    }
  }

  /** The look-ahead: in order, checking the term before the stop. */
  function ScanForward(ws: seq<PathWord>, terms: Terms, allowStop: bool): (r: Option<PathWord>)
    ensures r.Some? ==> r.value in ws && IsIn(r.value, terms)
    decreases |ws|
  {
    if ws == [] then None
    else if IsIn(ws[0], terms) then Some(ws[0])
    else if Blocks(ws[0], allowStop) then None
    else ScanForward(ws[1..], terms, allowStop)
  }

  /** Position k is what the look-ahead finds: the first hit, with no stop word before it. */
  predicate ForwardHit(ws: seq<PathWord>, terms: Terms, allowStop: bool, k: int) {
    0 <= k < |ws| && IsIn(ws[k], terms) &&
    forall j :: 0 <= j < k ==> !IsIn(ws[j], terms) && !Blocks(ws[j], allowStop)
  }

  lemma {:induction false} ScanForwardFindsFirst(ws: seq<PathWord>, terms: Terms, allowStop: bool)
    ensures forall k :: ForwardHit(ws, terms, allowStop, k) ==> ScanForward(ws, terms, allowStop) == Some(ws[k])
    ensures ScanForward(ws, terms, allowStop).Some? ==>
      exists k :: ForwardHit(ws, terms, allowStop, k) && ScanForward(ws, terms, allowStop) == Some(ws[k])
    decreases |ws|
  {
    if ws != [] {
      var rest := ws[1..];
      ScanForwardFindsFirst(rest, terms, allowStop);
      if IsIn(ws[0], terms) {
        assert ForwardHit(ws, terms, allowStop, 0);
        forall k | ForwardHit(ws, terms, allowStop, k) ensures k == 0 { }
      } else if !Blocks(ws[0], allowStop) {
        forall k | ForwardHit(ws, terms, allowStop, k)
          ensures ForwardHit(rest, terms, allowStop, k - 1)
        {
          assert forall j :: 0 <= j < k - 1 ==> rest[j] == ws[j + 1];
        }
        if ScanForward(ws, terms, allowStop).Some? {
          var k :| ForwardHit(rest, terms, allowStop, k) && ScanForward(rest, terms, allowStop) == Some(rest[k]);
          assert forall j :: 0 <= j < k ==> rest[j] == ws[j + 1];
          assert ForwardHit(ws, terms, allowStop, k + 1);
        }
      } else {
        forall k | ForwardHit(ws, terms, allowStop, k) ensures k == 0 { }
      }
    }
  }

  /** A word that both stops and matches ends a look-behind empty-handed but is found by a look-ahead. */
  lemma StopOrderDiffers(w: PathWord, terms: Terms)
    requires IsIn(w, terms) && Stop(w)
    ensures ScanBack([w], terms, true) == None
    ensures ScanForward([w], terms, true) == Some(w)
    ensures ScanBack([w], terms, false) == Some(w)
  {
  }

  /** The words `has_before` looks at from word c: `ws[max(c-window,0) : c-offset]`. */
  function BehindWindow(ws: seq<PathWord>, c: nat, window: nat, offset: nat): (r: seq<PathWord>)
    requires c < |ws|
    ensures offset <= c ==> forall w :: w in r ==> w in ws[..c]
  {
    var lo := if c - window > 0 then c - window else 0;
    var r := Window(ws, lo, SliceEnd(c - offset, |ws|));
    assert offset <= c ==> lo + |r| <= c;
    r
  }

  /** The words `has_after` looks at from word c: `ws[c+1+offset : min(c+window+1, n)]`. */
  function AheadWindow(ws: seq<PathWord>, c: nat, window: nat, offset: nat): (r: seq<PathWord>)
    requires c < |ws|
    ensures forall w :: w in r ==> w in ws[c + 1..]
  {
    var hi := if c + window + 1 < |ws| then c + window + 1 else |ws|;
    var r := Window(ws, c + 1 + offset, hi);
    assert forall k :: 0 <= k < |r| ==> r[k] == ws[c + 1..][offset + k];
    r
  }

  /** `has_before` with the cursor on word c. */
  function LookBehind(ws: seq<PathWord>, c: nat, terms: Terms, window: nat, offset: nat, allowStop: bool): (r: Option<PathWord>)
    requires c < |ws|
    ensures r.Some? ==> IsIn(r.value, terms) && r.value in ws
    ensures r.Some? && offset <= c ==> r.value in ws[..c]
  {
    var r := ScanBack(BehindWindow(ws, c, window, offset), terms, allowStop);
    assert r.Some? && offset <= c ==> r.value in ws[..c];
    assert r.Some? ==> r.value in ws by {
      if r.Some? {
        assert r.value in BehindWindow(ws, c, window, offset);
        var k :| 0 <= k < |BehindWindow(ws, c, window, offset)| && BehindWindow(ws, c, window, offset)[k] == r.value;
      }
    }
    r
  }

  /** `has_after` with the cursor on word c. */
  function LookAhead(ws: seq<PathWord>, c: nat, terms: Terms, window: nat, offset: nat, allowStop: bool): (r: Option<PathWord>)
    requires c < |ws|
    ensures r.Some? ==> IsIn(r.value, terms) && r.value in ws[c + 1..] && r.value in ws
  {
    var r := ScanForward(AheadWindow(ws, c, window, offset), terms, allowStop);
    assert r.Some? ==> r.value in ws[c + 1..];
    assert ws == ws[..c + 1] + ws[c + 1..];
    r
  }

  class PathSection {
    var section: seq<PathWord>
    /** The index of the word under the cursor; None before iteration starts. */
    var curr: Option<nat>

    /** The cursor is on a word. */
    predicate OnWord()
      reads this
    {
      curr.Some? && curr.value < |section|
    }

    /** Builds the section from the text and the tokeniser's matches over it. */
    constructor (text: string, spans: seq<Span>)
      requires SpansOk(text, spans)
      ensures section == Tokenize(text, spans) && curr == None
    {
      var words: seq<PathWord> := [];
      var pword: string := [];
      var pindex: nat := 0;
      var wordIndex: nat := 0;
      var i := 0;
      while i < |spans|
        invariant 0 <= i <= |spans|
        invariant wordIndex == |words| && (i == 0 ==> pword == [] && words == [])
        invariant i > 0 ==> |words| == i - 1 && pword == text[spans[i - 1].0..spans[i - 1].1] && pword != [] && pindex == spans[i - 1].1
        invariant forall j :: 0 <= j < |words| ==> words[j] == Token(text, spans, j)
      {
        var m := spans[i];
        assert i > 0 ==> SplEnd(text, spans, i - 1) == m.0;
        if pword != [] {
          words := words + [PathWord(pword, wordIndex, text[pindex..m.0])];
          wordIndex := wordIndex + 1;
        }
        pword := text[m.0..m.1];
        pindex := m.1;
        i := i + 1;
      }
      if pword != [] {
        assert SplEnd(text, spans, i - 1) == |text|;
        words := words + [PathWord(pword, wordIndex, text[pindex..])];
      }
      assert |words| == |spans|;
      assert forall j :: 0 <= j < |words| ==> words[j] == Tokenize(text, spans)[j];
      section := words;
      curr := None;
    }

    /** One step of `__iter__`: the cursor moves to word i. */
    method MoveTo(i: nat)
      requires i < |section|
      modifies this
      ensures section == old(section) && curr == Some(i)
    {
      curr := Some(i);
    }

    /** `iter_prev_words`: the words before the cursor, nearest first. */
    function PrevWords(): (r: seq<PathWord>)
      reads this
      requires OnWord()
      ensures |r| == curr.value
      ensures forall k :: 0 <= k < |r| ==> r[k] == section[curr.value - 1 - k]
    {
      Reversed(section[..curr.value])
    }

    /** What `has_before(terms, window, offset, allow_stop)` returns; None stands for False. */
    function Before(terms: Terms, window: nat, offset: nat, allowStop: bool): Option<PathWord>
      reads this
      requires OnWord()
    {
      LookBehind(section, curr.value, terms, window, offset, allowStop)
    }

    /** What `has_after(terms, window, offset, allow_stop)` returns; None stands for False. */
    function After(terms: Terms, window: nat, offset: nat, allowStop: bool): Option<PathWord>
      reads this
      requires OnWord()
    {
      LookAhead(section, curr.value, terms, window, offset, allowStop)
    }

    /** `has_before`: the loop over the reversed window. It changes nothing. */
    method HasBefore(terms: Terms, window: nat, offset: nat, allowStop: bool) returns (r: Option<PathWord>)
      requires OnWord()
      ensures r == Before(terms, window, offset, allowStop)
      ensures r.Some? ==> IsIn(r.value, terms)
      ensures r.Some? && offset <= curr.value ==> r.value in section[..curr.value]
    {
      var ws := BehindWindow(section, curr.value, window, offset);
      var k := |ws|;
      assert ws[..k] == ws;
      while k > 0
        invariant 0 <= k <= |ws|
        invariant ScanBack(ws, terms, allowStop) == ScanBack(ws[..k], terms, allowStop)
      {
        var word := ws[k - 1];
        assert ws[..k][..k - 1] == ws[..k - 1];
        if allowStop && Stop(word) {
          return None;
        }
        if IsIn(word, terms) {
          return Some(word);
        }
        k := k - 1;
      }
      return None;
    }

    /** `has_after`: the loop over the window in order. It changes nothing. */
    method HasAfter(terms: Terms, window: nat, offset: nat, allowStop: bool) returns (r: Option<PathWord>)
      requires OnWord()
      ensures r == After(terms, window, offset, allowStop)
      ensures r.Some? ==> IsIn(r.value, terms) && r.value in section[curr.value + 1..]
    {
      var ws := AheadWindow(section, curr.value, window, offset);
      var k := 0;
      assert ws[k..] == ws;
      while k < |ws|
        invariant 0 <= k <= |ws|
        invariant ScanForward(ws, terms, allowStop) == ScanForward(ws[k..], terms, allowStop)
      {
        var word := ws[k];
        assert ws[k..][1..] == ws[k + 1..];
        if IsIn(word, terms) {
          return Some(word);
        }
        if allowStop && Stop(word) {
          return None;
        }
        k := k + 1;
      }
      return None;
    }
  }

  function Reversed<T>(s: seq<T>): (r: seq<T>)
    ensures |r| == |s| && forall k :: 0 <= k < |s| ==> r[k] == s[|s| - 1 - k]
  {
    if s == [] then [] else Reversed(s[1..]) + [s[0]]
  }
}
