/**
 * PathManager: a pathology report split into specimens ('a', 'b', ...), each
 * with its text blocks, and read, at the first query, into the jars of a
 * JarManager.
 *
 * The regular-expression splits of `parse_jars` are inputs: the label/text
 * blocks the specimen-label split yields and, per block, where the comment
 * pattern matches. The tokeniser of a section is the function `tokens`.
 */
module PathManagers {
  import opened Wrappers
  import opened Text
  import opened Enums
  import opened MaybeCounters
  import opened Utils
  import opened PathSections
  import opened Jars
  import opened JarWalk
  import opened JarManagers

  // ---------------------------------------------------------------- parse_specimen_range

  /** Every character is a lower-case letter a-z. */
  predicate AllLower(s: seq<char>) { forall i :: 0 <= i < |s| ==> IsLower(s[i]) }

  /** `[chr(x) for x in range(ord(lo) + 1, ord(hi) + 1)]`: the letters after lo up to hi. */
  function LettersBetween(lo: char, hi: char): (r: seq<char>)
    requires IsLower(lo) && IsLower(hi)
    ensures |r| == if lo < hi then hi as int - lo as int else 0
    ensures forall k :: 0 <= k < |r| ==> r[k] as int == lo as int + 1 + k
    ensures AllLower(r)
  {
    if lo < hi then seq(hi as int - lo as int, k requires 0 <= k < hi as int - lo as int => (lo as int + 1 + k) as char)
    else []
  }

  /** 'an' with nothing after it: reading `s[i + 2]` is an IndexError. */
  predicate AndCutShort(s: string, i: nat) { i + 2 == |s| && s[i] == 'a' && s[i + 1] == 'n' }

  /** The word 'and' starts at i. */
  predicate AndAt(s: string, i: nat) { i + 2 < |s| && s[i] == 'a' && s[i + 1] == 'n' && s[i + 2] == 'd' }

  /**
   * The loop of `parse_specimen_range` from index i, with the letters so far
   * and the previous marker: '-', ',' and '&' are markers; 'and' is the marker
   * ',' and skips itself and the character after it; a letter after '-'
   * brings every letter from the last one up to it, any other letter itself;
   * every other character is passed over.
   */
  function RangeFrom(s: string, i: nat, chars: seq<char>, pchar: Option<char>): (r: Result<seq<char>>)
    requires AllLower(chars)
    ensures r.Ok? ==> AllLower(r.value) && |chars| <= |r.value| && r.value[..|chars|] == chars
    ensures r.Err? ==> r.error == IndexError
    decreases |s| - i
  {
    if i >= |s| then Ok(chars)
    else
      var c := s[i];
      if c == '-' || c == ',' || c == '&' then RangeFrom(s, i + 1, chars, Some(c))
      else if AndCutShort(s, i) then Err(IndexError)
      else if AndAt(s, i) then RangeFrom(s, i + 4, chars, Some(','))
      else if !IsLower(c) then RangeFrom(s, i + 1, chars, pchar)
      else if pchar == Some('-') then
        if chars == [] then Err(IndexError)
        else
          var more := chars + LettersBetween(chars[|chars| - 1], c);
          var r := RangeFrom(s, i + 1, more, Some(c));
          assert r.Ok? ==> r.value[..|chars|] == r.value[..|more|][..|chars|];
          r
      else
        var r := RangeFrom(s, i + 1, chars + [c], Some(c));
        assert r.Ok? ==> r.value[..|chars|] == r.value[..|chars| + 1][..|chars|];
        r
  }

  /** `parse_specimen_range(s)`: the specimen letters a label names. */
  function SpecimenRange(s: string): Result<seq<char>> { RangeFrom(s, 0, [], None) }

  method ParseSpecimenRange(s: string) returns (r: Result<seq<char>>)
    ensures r == SpecimenRange(s)
  {
    var chars: seq<char> := [];
    var pchar: Option<char> := None;
    var i := 0;
    while i < |s|
      invariant AllLower(chars)
      invariant RangeFrom(s, i, chars, pchar) == SpecimenRange(s)
      decreases |s| - i
    {
      var c := s[i];
      if c == '-' || c == ',' || c == '&' {
        pchar := Some(c);
      } else if c == 'a' && i + 1 < |s| && s[i + 1] == 'n' && i + 2 >= |s| {
        return Err(IndexError);
      } else if c == 'a' && i + 1 < |s| && s[i + 1] == 'n' && s[i + 2] == 'd' {
        pchar := Some(',');
        i := i + 3;
      } else if IsLower(c) {
        if pchar == Some('-') {
          if chars == [] {
            return Err(IndexError);
          }
          chars := chars + LettersBetween(chars[|chars| - 1], c);
        } else {
          chars := chars + [c];
        }
        pchar := Some(c);
      }
      i := i + 1;
    }
    return Ok(chars);
  }

  /** The lower-case letters of s, in order. */
  function Letters(s: string): (r: seq<char>)
    ensures AllLower(r)
  {
    if s == [] then [] else (if IsLower(s[0]) then [s[0]] else []) + Letters(s[1..])
  }

  /** No range marker and no 'an' from position i on. */
  predicate PlainFrom(s: string, i: nat) {
    forall j :: i <= j < |s| ==> s[j] != '-' && !(s[j] == 'a' && j + 1 < |s| && s[j + 1] == 'n')
  }

  /** Without a '-' and without 'and', every letter is a specimen of its own, in order. */
  lemma {:induction false} PlainRangeFrom(s: string, i: nat, chars: seq<char>, pchar: Option<char>)
    requires i <= |s| && AllLower(chars) && PlainFrom(s, i) && pchar != Some('-')
    ensures RangeFrom(s, i, chars, pchar) == Ok(chars + Letters(s[i..]))
    decreases |s| - i
  {
    if i == |s| {
      assert s[i..] == [] && chars + [] == chars;
    } else {
      assert s[i..] == [s[i]] + s[i + 1..];
      assert Letters(s[i..]) == (if IsLower(s[i]) then [s[i]] else []) + Letters(s[i + 1..]);
      var c := s[i];
      assert c != '-' && !AndCutShort(s, i) && !AndAt(s, i);
      assert PlainFrom(s, i + 1);
      if c == ',' || c == '&' {
        assert RangeFrom(s, i, chars, pchar) == RangeFrom(s, i + 1, chars, Some(c));
        PlainRangeFrom(s, i + 1, chars, Some(c));
        assert [] + Letters(s[i + 1..]) == Letters(s[i + 1..]);
      } else if !IsLower(c) {
        assert RangeFrom(s, i, chars, pchar) == RangeFrom(s, i + 1, chars, pchar);
        PlainRangeFrom(s, i + 1, chars, pchar);
        assert [] + Letters(s[i + 1..]) == Letters(s[i + 1..]);
      } else {
        assert RangeFrom(s, i, chars, pchar) == RangeFrom(s, i + 1, chars + [c], Some(c));
        PlainRangeFrom(s, i + 1, chars + [c], Some(c));
        assert chars + [c] + Letters(s[i + 1..]) == chars + ([c] + Letters(s[i + 1..]));
      }
    }
  }

  /** A label of single letters separated by ',' or '&' (no '-', no 'and') names exactly its letters, in order. */
  lemma PlainRange(s: string)
    requires PlainFrom(s, 0)
    ensures SpecimenRange(s) == Ok(Letters(s))
  {
    PlainRangeFrom(s, 0, [], None);
    assert s[0..] == s;
  }

  /** 'x-y' names x and every letter after it up to y. */
  lemma DashRange(x: char, y: char)
    requires IsLower(x) && IsLower(y)
    ensures SpecimenRange([x, '-', y]) == Ok([x] + LettersBetween(x, y))
  {
    var s := [x, '-', y];
    assert !AndCutShort(s, 0) && !AndAt(s, 0);
    assert [] + [x] == [x];
    assert RangeFrom(s, 0, [], None) == RangeFrom(s, 1, [x], Some(x));
    assert RangeFrom(s, 1, [x], Some(x)) == RangeFrom(s, 2, [x], Some('-'));
    assert RangeFrom(s, 2, [x], Some('-')) == RangeFrom(s, 3, [x] + LettersBetween(x, y), Some(y));
  }

  /** Labels from the documentation: a range, a list, and a list with 'and'. */
  lemma RangeExamples()
    ensures SpecimenRange("a-c") == Ok("abc")
    ensures SpecimenRange("a,c") == Ok("ac")
    ensures SpecimenRange("a and b") == Ok("ab")
  {
    DashRange('a', 'c');
    assert LettersBetween('a', 'c') == "bc";
    assert ['a'] + "bc" == "abc";
    PlainRange("a,c");
    assert Letters("a,c") == "ac" by {
      assert "a,c"[1..] == ",c" && ",c"[1..] == "c" && "c"[1..] == "";
    }
    AndExample();
  }

  /** 'a and b' names a and b: the word 'and' acts as ','. */
  lemma AndExample()
    ensures SpecimenRange("a and b") == Ok("ab")
  {
    var s := "a and b";
    assert |s| == 7 && s[0] == 'a' && s[1] == ' ' && s[2] == 'a' && s[3] == 'n' && s[4] == 'd' && s[5] == ' ' && s[6] == 'b';
    LetterStep(s, 0, [], None);
    assert [] + ['a'] == ['a'];
    SkipStep(s, 1, ['a'], Some('a'));
    AndStep(s, 2, ['a'], Some('a'));
    LetterStep(s, 6, ['a'], Some(','));
    assert ['a'] + ['b'] == ['a', 'b'];
  }

  /** A letter not after '-' is taken as it is. */
  lemma LetterStep(s: string, i: nat, chars: seq<char>, pchar: Option<char>)
    requires i < |s| && IsLower(s[i]) && pchar != Some('-') && AllLower(chars)
    requires !AndCutShort(s, i) && !AndAt(s, i)
    ensures RangeFrom(s, i, chars, pchar) == RangeFrom(s, i + 1, chars + [s[i]], Some(s[i]))
  {
  }

  /** A character that is neither a marker nor a letter is passed over. */
  lemma SkipStep(s: string, i: nat, chars: seq<char>, pchar: Option<char>)
    requires i < |s| && !IsLower(s[i]) && s[i] !in "-,&" && AllLower(chars)
    ensures RangeFrom(s, i, chars, pchar) == RangeFrom(s, i + 1, chars, pchar)
  {
  }

  /** The word 'and' is the marker ',' and is skipped with the character after it. */
  lemma AndStep(s: string, i: nat, chars: seq<char>, pchar: Option<char>)
    requires AndAt(s, i) && AllLower(chars)
    ensures RangeFrom(s, i, chars, pchar) == RangeFrom(s, i + 4, chars, Some(','))
  {
  }

  /** A range with no letter before its '-', and an 'an' at the end, are IndexErrors; capitals are passed over. */
  lemma RangeOddities()
    ensures SpecimenRange("-c") == Err(IndexError)
    ensures SpecimenRange("b an") == Err(IndexError)
    ensures SpecimenRange("A-C") == Ok([])
  {
    var t := "b an";
    assert [] + ['b'] == ['b'];
    assert RangeFrom(t, 0, [], None) == RangeFrom(t, 1, ['b'], Some('b'));
    assert RangeFrom(t, 1, ['b'], Some('b')) == RangeFrom(t, 2, ['b'], Some('b'));
    assert AndCutShort(t, 2);
    var u := "A-C";
    assert RangeFrom(u, 0, [], None) == RangeFrom(u, 1, [], None);
    assert RangeFrom(u, 1, [], None) == RangeFrom(u, 2, [], Some('-'));
    assert RangeFrom(u, 2, [], Some('-')) == RangeFrom(u, 3, [], Some('-'));
  }

  // ---------------------------------------------------------------- parse_jars

  /** Python's `s[:n]`. */
  function Prefix<T>(s: seq<T>, n: nat): (r: seq<T>)
    ensures |r| == if n <= |s| then n else |s|
  {
    if n <= |s| then s[..n] else s
  }

  /** Python's `s[n:]`. */
  function Suffix<T>(s: seq<T>, n: nat): (r: seq<T>)
    ensures |r| == if n <= |s| then |s| - n else 0
  {
    if n <= |s| then s[n..] else []
  }

  /**
   * One piece of the specimen-label split: the label ('A' for the text before
   * the first label) and the text after it; `comment` is the start and end of
   * the first match of the comment pattern in the lower-cased text.
   */
  datatype Block = Block(name: string, text: string, comment: Option<(nat, nat)>)

  /** The `defaultdict(list)` of specimen texts: its keys in insertion order and the list under each. */
  datatype Specimens = Specimens(keys: seq<string>, texts: map<string, seq<string>>)

  /** The keys are those of the dictionary, each once. */
  ghost predicate Keyed(sp: Specimens) {
    (forall k :: k in sp.texts <==> k in sp.keys) &&
    (forall i, j :: 0 <= i < j < |sp.keys| ==> sp.keys[i] != sp.keys[j])
  }

  /** `specimens_dict[key].append(text)`: a new key goes at the end of the order. */
  function Append(sp: Specimens, key: string, text: string): (r: Specimens)
    ensures Keyed(sp) ==> Keyed(r)
    ensures r.texts.Keys == sp.texts.Keys + {key}
    ensures r.texts[key] == (if key in sp.texts then sp.texts[key] else []) + [text]
    ensures forall k :: k in sp.texts && k != key ==> r.texts[k] == sp.texts[k]
    ensures Keyed(sp) ==> r.keys == if key in sp.texts then sp.keys else sp.keys + [key]
  {
    if key in sp.texts then sp.(texts := sp.texts[key := sp.texts[key] + [text]])
    else Specimens(sp.keys + [key], sp.texts[key := [text]])
  }

  /** A label naming several specimens: it holds '-', ',', 'and' or '&'. */
  predicate RangeLabel(x: string) { Contains(x, "-") || Contains(x, ",") || Contains(x, "and") || Contains(x, "&") }

  /** The comment as the source computes it: taken from the text after it was cut at the match. */
  function CommentAsWritten(text: string, m: (nat, nat)): string { Suffix(Prefix(text, m.0), m.1) }

  /** A match never ends before it starts, so the comment the source keeps is always empty. */
  lemma CommentAsWrittenEmpty(text: string, m: (nat, nat))
    requires m.0 <= m.1
    ensures CommentAsWritten(text, m) == []
  {
  }

  /** Where the comment goes wrong: "dx: polyp. comment: benign" keeps no comment. */
  lemma CommentLost()
    ensures CommentAsWritten("dx: polyp. comment: benign", (11, 19)) == []
    ensures Comment("dx: polyp. comment: benign", (11, 19)) == " benign"
  {
    assert "dx: polyp. comment: benign"[19..] == " benign";
  }

  /** The comment the code is evidently after: the text that follows the match. */
  function Comment(text: string, m: (nat, nat)): (r: string)
    ensures m.1 <= |text| ==> text == text[..m.1] + r
    ensures m.1 >= |text| ==> r == []
  {
    Suffix(text, m.1)
  }

  /** The body (the text before the comment) and the comment of a block's lower-cased text. */
  function Parts(text: string, comment: Option<(nat, nat)>): (r: (string, string))
    ensures comment.None? ==> r == (text, [])
    ensures comment.Some? ==> r.0 == Prefix(text, comment.value.0) && r.1 == Comment(text, comment.value)
  {
    match comment
      case None => (text, [])
      case Some(m) => (Prefix(text, m.0), Comment(text, m))
  }

  /** The body under a key, then the comment when there is one. */
  function AddEntry(sp: Specimens, key: string, body: string, comment: string): (r: Specimens)
    ensures Keyed(sp) ==> Keyed(r)
    ensures r.texts.Keys == sp.texts.Keys + {key}
    ensures r.texts[key] == (if key in sp.texts then sp.texts[key] else []) + [body] + (if comment != [] then [comment] else [])
    ensures forall k :: k in sp.texts && k != key ==> r.texts[k] == sp.texts[k]
  {
    var once := Append(sp, key, body);
    if comment != [] then Append(once, key, comment) else once
  }

  /** The body and comment under the key of each letter, in order. */
  function AddEach(sp: Specimens, letters: seq<char>, body: string, comment: string): (r: Specimens)
    ensures Keyed(sp) ==> Keyed(r)
    ensures r.texts.Keys == sp.texts.Keys + set k | 0 <= k < |letters| :: [letters[k]]
    ensures forall k :: k in sp.texts && k !in (set j | 0 <= j < |letters| :: [letters[j]]) ==> r.texts[k] == sp.texts[k]
    decreases |letters|
  {
    if letters == [] then sp
    else
      var front := letters[..|letters| - 1];
      assert (set j | 0 <= j < |letters| :: [letters[j]]) == (set j | 0 <= j < |front| :: [front[j]]) + {[letters[|letters| - 1]]};
      AddEntry(AddEach(sp, front, body, comment), [letters[|letters| - 1]], body, comment)
  }

  /** One round of the loop of `parse_jars`: a blank block is skipped; a range label files the block under each letter. */
  function AddBlock(sp: Specimens, b: Block): (r: Result<Specimens>)
    ensures Keyed(sp) && r.Ok? ==> Keyed(r.value)
    ensures r.Err? <==> Strip(Lower(b.text)) != [] && RangeLabel(Lower(b.name)) && SpecimenRange(Lower(b.name)).Err?
    ensures Strip(Lower(b.text)) == [] ==> r == Ok(sp)
  {
    var x := Lower(b.name);
    var text := Lower(b.text);
    if Strip(text) == [] then Ok(sp)
    else
      var parts := Parts(text, b.comment);
      if RangeLabel(x) then
        match SpecimenRange(x)
          case Err(e) => Err(e)
          case Ok(letters) => Ok(AddEach(sp, letters, parts.0, parts.1))
      else Ok(AddEntry(sp, x, parts.0, parts.1))
  }

  /** The dictionary the loop of `parse_jars` builds from the blocks, or the IndexError of a bad range label. */
  function Grouped(blocks: seq<Block>): (r: Result<Specimens>)
    ensures r.Ok? ==> Keyed(r.value)
  {
    if blocks == [] then Ok(Specimens([], map[]))
    else
      match Grouped(blocks[..|blocks| - 1])
        case Err(e) => Err(e)
        case Ok(sp) => AddBlock(sp, blocks[|blocks| - 1])
  }

  /** Every block with text and a plain label files its body under its lower-cased label. */
  lemma {:induction false} GroupedFiles(blocks: seq<Block>, i: nat)
    requires i < |blocks| && Grouped(blocks).Ok?
    requires Strip(Lower(blocks[i].text)) != [] && !RangeLabel(Lower(blocks[i].name))
    ensures Lower(blocks[i].name) in Grouped(blocks).value.texts
    ensures Parts(Lower(blocks[i].text), blocks[i].comment).0 in Grouped(blocks).value.texts[Lower(blocks[i].name)]
  {
    var front := blocks[..|blocks| - 1];
    assert Grouped(front).Ok?;
    var sp := Grouped(front).value;
    var key := Lower(blocks[i].name);
    var body := Parts(Lower(blocks[i].text), blocks[i].comment).0;
    var last := blocks[|blocks| - 1];
    assert Grouped(blocks) == AddBlock(sp, last);
    if i == |blocks| - 1 {
      AddBlockFiles(sp, last);
    } else {
      assert front[i] == blocks[i];
      GroupedFiles(front, i);
      AddBlockKeeps(sp, last, key, body);
    }
  }

  /** A block with text and a plain label files its body under its label. */
  lemma AddBlockFiles(sp: Specimens, b: Block)
    requires Strip(Lower(b.text)) != [] && !RangeLabel(Lower(b.name))
    ensures AddBlock(sp, b).Ok? && Lower(b.name) in AddBlock(sp, b).value.texts
    ensures Parts(Lower(b.text), b.comment).0 in AddBlock(sp, b).value.texts[Lower(b.name)]
  {
    var parts := Parts(Lower(b.text), b.comment);
    var r := AddEntry(sp, Lower(b.name), parts.0, parts.1);
    assert AddBlock(sp, b) == Ok(r);
    assert r.texts[Lower(b.name)][|Under(sp, Lower(b.name))|] == parts.0;
  }

  /** A round of the loop never takes an entry away. */
  lemma AddBlockKeeps(sp: Specimens, b: Block, key: string, t: string)
    requires key in sp.texts && t in sp.texts[key] && AddBlock(sp, b).Ok?
    ensures key in AddBlock(sp, b).value.texts && t in AddBlock(sp, b).value.texts[key]
  {
    var x := Lower(b.name);
    if Strip(Lower(b.text)) != [] && RangeLabel(x) {
      var parts := Parts(Lower(b.text), b.comment);
      AddEachKeeps(sp, SpecimenRange(x).value, parts.0, parts.1, key, t);
    }
  }

  /** Filing more blocks never takes an entry away. */
  lemma {:induction false} AddEachKeeps(sp: Specimens, letters: seq<char>, body: string, comment: string, key: string, t: string)
    requires key in sp.texts && t in sp.texts[key]
    ensures key in AddEach(sp, letters, body, comment).texts && t in AddEach(sp, letters, body, comment).texts[key]
    decreases |letters|
  {
    if letters != [] {
      AddEachKeeps(sp, letters[..|letters| - 1], body, comment, key, t);
    }
  }

  /** The loop of `parse_jars` over the blocks. */
  method GroupBlocks(blocks: seq<Block>) returns (r: Result<Specimens>)
    ensures r == Grouped(blocks)
  {
    var sp := Specimens([], map[]);
    var n := 0;
    while n < |blocks|
      invariant n <= |blocks|
      invariant Grouped(blocks[..n]) == Ok(sp)
    {
      assert blocks[..n + 1][..n] == blocks[..n] && blocks[..n + 1][n] == blocks[n];
      var next := FileBlock(sp, blocks[n]);
      if next.Err? {
        GroupedKeepsError(blocks, n + 1);
        return next;
      }
      sp := next.value;
      n := n + 1;
    }
    assert blocks[..n] == blocks;
    return Ok(sp);
  }

  /** One round of the loop: the block's body and comment under its label, or under each letter of a range label. */
  method FileBlock(sp0: Specimens, b: Block) returns (r: Result<Specimens>)
    ensures r == AddBlock(sp0, b)
  {
    var sp := sp0;
    var x := Lower(b.name);
    var text := Lower(b.text);
    if Strip(text) == [] {
      return Ok(sp);
    }
    var body, comment := text, "";
    if b.comment.Some? {
      var m := b.comment.value;
      body, comment := Prefix(text, m.0), Comment(text, m);
    }
    if RangeLabel(x) {
      var letters := ParseSpecimenRange(x);
      if letters.Err? {
        return Err(letters.error);
      }
      var k := 0;
      while k < |letters.value|
        invariant k <= |letters.value|
        invariant sp == AddEach(sp0, letters.value[..k], body, comment)
      {
        assert letters.value[..k + 1][..k] == letters.value[..k];
        var key := [letters.value[k]];
        sp := Append(sp, key, body);
        if comment != [] {
          sp := Append(sp, key, comment);
        }
        k := k + 1;
      }
      assert letters.value[..k] == letters.value;
    } else {
      sp := Append(sp, x, body);
      if comment != [] {
        sp := Append(sp, x, comment);
      }
    }
    return Ok(sp);
  }

  /** An error in the first n blocks is the error of them all. */
  lemma {:induction false} GroupedKeepsError(blocks: seq<Block>, n: nat)
    requires n <= |blocks| && Grouped(blocks[..n]).Err?
    ensures Grouped(blocks) == Grouped(blocks[..n])
    decreases |blocks| - n
  {
    if n < |blocks| {
      assert blocks[..n + 1][..n] == blocks[..n];
      GroupedKeepsError(blocks, n + 1);
    } else {
      assert blocks[..n] == blocks;
    }
  }

  /** `specimens_dict['a']`: a missing key reads as an empty list. */
  function Under(sp: Specimens, key: string): seq<string> {
    if key in sp.texts then sp.texts[key] else []
  }

  /** The dictionary with a new list for specimen 'a'. */
  function WithA(sp: Specimens, a: seq<string>): Specimens { sp.(texts := sp.texts["a" := a]) }

  /** 'received' or 'diagnosis' in the block. */
  predicate IntroWords(t: string) { Contains(Lower(t), "received") || Contains(Lower(t), "diagnosis") }

  /**
   * The special cases of `parse_jars`, which all look at specimen 'a': a long
   * first block before as many blocks as specimen 'b' has is introductory text
   * and goes; a short first block with one block too many goes when it reads
   * like an intro, and is otherwise joined to the next; a short first block
   * with 'received' goes. Without a specimen 'a' its first block is an
   * IndexError.
   */
  function SpecialCases(sp: Specimens): (r: Result<Specimens>)
    requires Keyed(sp)
    ensures r.Err? <==> Under(sp, "a") == [] && !("b" in sp.texts && 0 > |Under(sp, "b")|)
    ensures r.Err? ==> r.error == IndexError
    ensures r.Ok? ==> Keyed(r.value) && r.value.keys == sp.keys && "a" in sp.texts
    ensures r.Ok? ==> forall k :: k in sp.texts && k != "a" ==> r.value.texts[k] == sp.texts[k]
  {
    var a := Under(sp, "a");
    var hasB := "b" in sp.texts;
    var b := Under(sp, "b");
    if hasB && |a| > |b| && |a[0]| > 100 then Ok(WithA(sp, a[1..]))
    else if hasB && |a| == |b| + 1 && |a[0]| < 30 then
      if IntroWords(a[0]) then Ok(WithA(sp, a[1..]))
      else Ok(WithA(sp, [Join(Prefix(a, 2), " ")] + Suffix(a, 2)))
    else if a == [] then Err(IndexError)
    else if Contains(a[0], "received") && |a[0]| < 30 then Ok(WithA(sp, a[1..]))
    else Ok(sp)
  }

  /** A short 'received' block before the specimens goes; the rest of specimen 'a' stays. */
  lemma DropsReceivedIntro(sp: Specimens)
    requires Keyed(sp) && "a" in sp.texts && "b" !in sp.texts && sp.texts["a"] != []
    requires Contains(sp.texts["a"][0], "received") && |sp.texts["a"][0]| < 30
    ensures SpecialCases(sp).Ok? && SpecialCases(sp).value.texts["a"] == sp.texts["a"][1..]
  {
  }

  /** A long first block of 'a', with more blocks in 'a' than in 'b', is dropped as introduction. */
  lemma DropsLongIntro(sp: Specimens)
    requires Keyed(sp) && "b" in sp.texts && |Under(sp, "a")| > |sp.texts["b"]| && |Under(sp, "a")[0]| > 100
    ensures SpecialCases(sp).Ok? && SpecialCases(sp).value.texts["a"] == sp.texts["a"][1..]
    ensures |SpecialCases(sp).value.texts["a"]| == |sp.texts["a"]| - 1
  {
  }

  /** A short preview line without intro words is joined to the first real block, so no text is lost. */
  lemma JoinsPreview(sp: Specimens)
    requires Keyed(sp) && "b" in sp.texts && |Under(sp, "a")| == |sp.texts["b"]| + 1 >= 2
    requires |Under(sp, "a")[0]| < 30 && !IntroWords(Under(sp, "a")[0])
    ensures SpecialCases(sp).Ok?
    ensures var a := sp.texts["a"];
      SpecialCases(sp).value.texts["a"] == [a[0] + " " + a[1]] + a[2..] &&
      |SpecialCases(sp).value.texts["a"]| == |sp.texts["b"]|
  {
    var a := sp.texts["a"];
    assert Prefix(a, 2) == [a[0], a[1]];
    assert Prefix(a, 2)[1..] == [a[1]];
    assert Join(Prefix(a, 2), " ") == a[0] + " " + a[1];
    assert Suffix(a, 2) == a[2..];
  }

  /** `parse_jars(text)`: the specimen dictionary, after the special cases. */
  function ParsedJars(blocks: seq<Block>): (r: Result<Specimens>)
    ensures r.Ok? ==> Keyed(r.value)
  {
    match Grouped(blocks)
      case Err(e) => Err(e)
      case Ok(sp) => SpecialCases(sp)
  }

  method ParseJars(blocks: seq<Block>) returns (r: Result<Specimens>)
    ensures r == ParsedJars(blocks)
  {
    var g := GroupBlocks(blocks);
    if g.Err? {
      return Err(g.error);
    }
    r := SpecialCases(g.value);
  }

  /** `specs_combined`: each specimen's blocks joined by spaces, in key order. */
  function Combined(sp: Specimens): (r: seq<string>)
    requires Keyed(sp)
    ensures |r| == |sp.keys| && forall i :: 0 <= i < |r| ==> r[i] == Join(sp.texts[sp.keys[i]], " ")
  {
    seq(|sp.keys|, i requires 0 <= i < |sp.keys| => Join(sp.texts[sp.keys[i]], " "))
  }

  // ---------------------------------------------------------------- _read_jars

  /** The word pattern's matches in a text, as (start, end) spans: the tokeniser of a section. */
  type Tokeniser = string -> seq<Span>

  /**
   * The spans the tokeniser gives t. Matches of a pattern lie inside the text
   * and in order; a tokeniser that breaks this is read as finding no word.
   */
  function Spans(tokens: Tokeniser, t: string): (r: seq<Span>)
    ensures SpansOk(t, r)
    ensures SpansOk(t, tokens(t)) ==> r == tokens(t)
  {
    if SpansOk(t, tokens(t)) then tokens(t) else []
  }

  /**
   * The two steps `_read_jars` takes on a specimen's sections: the rule walk
   * of `cursory_diagnosis_examination` over a section, and `find_locations`
   * of a section on a jar.
   */
  datatype Reader = Reader(examine: string -> Result<JarState>, locate: (string, JarState) -> JarState)

  /** The manager's own steps on the words the tokeniser finds. */
  function Steps(tokens: Tokeniser): (r: Reader)
    ensures forall t :: r.examine(t) == Examined(Tokenize(t, Spans(tokens, t)))
    ensures forall t, jar :: r.locate(t, jar) == Located(Tokenize(t, Spans(tokens, t)), jar)
  {
    Reader(t => Examined(Tokenize(t, Spans(tokens, t))), (t, jar) => Located(Tokenize(t, Spans(tokens, t)), jar))
  }

  /** The manager's jars and current jar as `_read_jars` goes through the specimens, and the error that stopped it. */
  datatype Progress = Progress(jars: seq<JarState>, currJar: Option<nat>, failure: Option<Error>)

  /** A specimen whose diagnosis section (its first block) can be walked. */
  predicate SpecimenOk(sections: seq<string>, rd: Reader) {
    sections != [] && rd.examine(sections[0]).Ok?
  }

  /** The jar of a specimen: from its diagnosis section, located by its second section when that one exists. */
  function SpecimenJar(sections: seq<string>, rd: Reader): JarState
    requires SpecimenOk(sections, rd)
  {
    var jar := rd.examine(sections[0]).value;
    if |sections| > 1 then rd.locate(sections[1], jar) else jar
  }

  /**
   * One specimen of `_read_jars`: its jar is appended and becomes the current
   * jar. A specimen with no block is an IndexError and a failing walk its
   * error; either leaves the manager as it was.
   */
  function ReadSpecimen(sections: seq<string>, rd: Reader, p: Progress): (r: Progress)
    requires p.failure.None?
    ensures r.failure.None? <==> SpecimenOk(sections, rd)
    ensures r.failure.None? ==> r.jars == p.jars + [SpecimenJar(sections, rd)] && r.currJar == Some(|p.jars|)
    ensures r.failure.Some? ==> r.jars == p.jars && r.currJar == p.currJar
    ensures sections == [] ==> r.failure == Some(IndexError)
    ensures sections != [] && r.failure.Some? ==> r.failure == Some(rd.examine(sections[0]).error)
  {
    if sections == [] then p.(failure := Some(IndexError))
    else
      match rd.examine(sections[0])
        case Err(e) => p.(failure := Some(e))
        case Ok(_) => Progress(p.jars + [SpecimenJar(sections, rd)], Some(|p.jars|), None)
  }

  /** A specimen whose walk succeeds appends its jar, located when it has a second section. */
  lemma ReadSpecimenJar(sections: seq<string>, rd: Reader, p: Progress)
    requires p.failure.None? && SpecimenOk(sections, rd)
    ensures var jar := rd.examine(sections[0]).value;
      ReadSpecimen(sections, rd, p) ==
      Progress(p.jars + [if |sections| > 1 then rd.locate(sections[1], jar) else jar], Some(|p.jars|), None)
  {
  }

  /** Replacing the last jar. */
  lemma ReplaceLast(front: seq<JarState>, jar: JarState, x: JarState)
    ensures (front + [jar])[|front| := x] == front + [x]
  {
  }

  /** `_read_jars` over the first n specimens, in key order, stopping at the first error. */
  function Read(sp: Specimens, rd: Reader, n: nat, p0: Progress): Progress
    requires Keyed(sp) && n <= |sp.keys| && p0.failure.None?
  {
    if n == 0 then p0
    else
      var p := Read(sp, rd, n - 1, p0);
      if p.failure.Some? then p else ReadSpecimen(sp.texts[sp.keys[n - 1]], rd, p)
  }

  /** One more specimen read after the first i. */
  lemma ReadNext(sp: Specimens, rd: Reader, i: nat, p0: Progress)
    requires Keyed(sp) && i < |sp.keys| && p0.failure.None?
    requires Read(sp, rd, i, p0).failure.None?
    ensures Read(sp, rd, i + 1, p0) == ReadSpecimen(sp.texts[sp.keys[i]], rd, Read(sp, rd, i, p0))
  {
  }

  /** An error stops the reading: the rest of the specimens are never read. */
  lemma {:induction false} ReadStops(sp: Specimens, rd: Reader, n: nat, p0: Progress)
    requires Keyed(sp) && n <= |sp.keys| && p0.failure.None?
    requires Read(sp, rd, n, p0).failure.Some?
    ensures Read(sp, rd, |sp.keys|, p0) == Read(sp, rd, n, p0)
    decreases |sp.keys| - n
  {
    if n < |sp.keys| {
      ReadStops(sp, rd, n + 1, p0);
    }
  }

  /**
   * Without an error, reading n specimens appends one jar per specimen, in
   * key order, each built from that specimen's sections, and the last one is
   * the current jar.
   */
  lemma {:induction false} ReadOneJarPerKey(sp: Specimens, rd: Reader, n: nat, p0: Progress)
    requires Keyed(sp) && n <= |sp.keys| && p0.failure.None?
    requires Read(sp, rd, n, p0).failure.None?
    ensures var r := Read(sp, rd, n, p0);
      |r.jars| == |p0.jars| + n && r.jars[..|p0.jars|] == p0.jars &&
      (n > 0 ==> r.currJar == Some(|r.jars| - 1)) &&
      forall k :: 0 <= k < n ==>
        SpecimenOk(sp.texts[sp.keys[k]], rd) && r.jars[|p0.jars| + k] == SpecimenJar(sp.texts[sp.keys[k]], rd)
  {
    if n > 0 {
      var p := Read(sp, rd, n - 1, p0);
      assert p.failure.None?;
      ReadOneJarPerKey(sp, rd, n - 1, p0);
      var r := Read(sp, rd, n, p0);
      assert r == ReadSpecimen(sp.texts[sp.keys[n - 1]], rd, p);
      assert r.jars[..|p.jars|] == p.jars;
      assert r.jars[..|p0.jars|] == p.jars[..|p0.jars|];
    }
  }

  /** After an error the manager keeps the jars of the specimens read before it, and no others. */
  lemma {:induction false} ReadFailureKeeps(sp: Specimens, rd: Reader, n: nat, p0: Progress)
    requires Keyed(sp) && n <= |sp.keys| && p0.failure.None?
    ensures var r := Read(sp, rd, n, p0);
      |p0.jars| <= |r.jars| <= |p0.jars| + n && r.jars[..|p0.jars|] == p0.jars &&
      (r.failure.Some? ==> |r.jars| < |p0.jars| + n)
  {
    if n > 0 {
      ReadFailureKeeps(sp, rd, n - 1, p0);
      var p := Read(sp, rd, n - 1, p0);
      if p.failure.None? {
        var r := ReadSpecimen(sp.texts[sp.keys[n - 1]], rd, p);
        assert r.jars[..|p.jars|] == p.jars;
        assert r.jars[..|p0.jars|] == p.jars[..|p0.jars|];
      }
    }
  }

  /** What the guard, `_read_jars` and its error leave behind, and what the query sees. */
  datatype Outcome = Outcome(result: Result<()>, jars: seq<JarState>, currJar: Option<nat>)

  /** Every jar after `postprocess()`, whose allow_maybe is False. */
  function PostprocessedAll(jars: seq<JarState>): (r: seq<JarState>)
    ensures |r| == |jars| && forall i :: 0 <= i < |r| ==> r[i] == Postprocessed(jars[i], false)
  {
    seq(|jars|, i requires 0 <= i < |jars| => Postprocessed(jars[i], false))
  }

  /**
   * `_read_jars()` from the manager's jars and current jar: a report without
   * text has no specimen dictionary, and `None.items()` is an AttributeError;
   * an error in a specimen leaves the jars read so far, unprocessed; otherwise
   * every jar is post-processed.
   */
  function ReadAll(specs: Option<Specimens>, rd: Reader, jars: seq<JarState>, currJar: Option<nat>): Outcome
    requires specs.Some? ==> Keyed(specs.value)
  {
    match specs
      case None => Outcome(Err(AttributeError("items")), jars, currJar)
      case Some(sp) =>
        var p := Read(sp, rd, |sp.keys|, Progress(jars, currJar, None));
        if p.failure.Some? then Outcome(Err(p.failure.value), p.jars, p.currJar)
        else Outcome(Ok(()), PostprocessedAll(p.jars), p.currJar)
  }

  /**
   * A first successful read of a report leaves one post-processed jar per
   * specimen, in key order.
   */
  lemma ReadAllOneJarPerKey(sp: Specimens, rd: Reader)
    requires Keyed(sp)
    requires ReadAll(Some(sp), rd, [], None).result.Ok?
    ensures var o := ReadAll(Some(sp), rd, [], None);
      |o.jars| == |sp.keys| &&
      forall k :: 0 <= k < |sp.keys| ==>
        SpecimenOk(sp.texts[sp.keys[k]], rd) && o.jars[k] == Postprocessed(SpecimenJar(sp.texts[sp.keys[k]], rd), false)
  {
    ReadOneJarPerKey(sp, rd, |sp.keys|, Progress([], None, None));
  }

  /**
   * A read that fails leaves the jars it had appended; as nothing marks them
   * read, the next query reads every specimen again and appends its jars once more.
   */
  lemma RetryAppendsAgain(sp: Specimens, rd: Reader, jars: seq<JarState>, currJar: Option<nat>)
    requires Keyed(sp)
    requires ReadAll(Some(sp), rd, jars, currJar).result.Err?
    ensures var o := ReadAll(Some(sp), rd, jars, currJar);
      |jars| <= |o.jars| < |jars| + |sp.keys| && o.jars[..|jars|] == jars &&
      Guarded(false, Some(sp), rd, o.jars, o.currJar) == ReadAll(Some(sp), rd, o.jars, o.currJar)
  {
    ReadFailureKeeps(sp, rd, |sp.keys|, Progress(jars, currJar, None));
  }

  /** The `jarreader` guard: the jars are read only while they have not been read. */
  function Guarded(read: bool, specs: Option<Specimens>, rd: Reader, jars: seq<JarState>, currJar: Option<nat>): Outcome
    requires specs.Some? ==> Keyed(specs.value)
  {
    if read then Outcome(Ok(()), jars, currJar) else ReadAll(specs, rd, jars, currJar)
  }

  /** The first error of a read, or the query's own result. */
  function Then<T>(read: Result<()>, query: Result<T>): (r: Result<T>)
    ensures read.Err? ==> r == Err(read.error)
    ensures read.Ok? ==> r == query
  {
    if read.Err? then Err(read.error) else query
  }

  // ---------------------------------------------------------------- the manager

  class PathManager {
    const text: string
    const tokens: Tokeniser
    var specs: Option<Specimens>
    var manager: JarManager
    var jarsRead: bool

    ghost predicate Valid()
      reads this, manager
    {
      manager.Valid() && (specs.Some? ==> Keyed(specs.value))
    }

    /** `bool(manager)`: the report has text other than white space. */
    predicate IsReport()
      reads this
    {
      Strip(text) != []
    }

    /** What the guard will do when the next query arrives. */
    ghost function Pending(): Outcome
      reads this, manager
      requires Valid()
    {
      Guarded(jarsRead, specs, Steps(tokens), manager.jars, manager.currJar)
    }

    /** A query has run the guard with outcome o: the manager holds o's jars, and only a successful read marks them read. */
    twostate predicate Queried(o: Outcome)
      reads this, manager
    {
      manager == old(manager) && specs == old(specs) && Valid() &&
      manager.jars == o.jars && manager.currJar == o.currJar &&
      jarsRead == (old(jarsRead) || o.result.Ok?)
    }

    /** The state `__init__` leaves for a parsed report: an empty JarManager, nothing read yet. */
    constructor (text: string, specs: Option<Specimens>, tokens: Tokeniser)
      requires specs.Some? ==> Keyed(specs.value)
      ensures Valid() && fresh(manager)
      ensures this.text == text && this.specs == specs && this.tokens == tokens
      ensures !jarsRead && manager.jars == [] && manager.currJar == None
    {
      this.text := text;
      this.tokens := tokens;
      this.specs := specs;
      manager := new JarManager();
      jarsRead := false;
    }

    /**
     * `PathManager(text)`: an empty text has no specimens; any other is
     * parsed into specimens, and an error of `parse_jars` is raised.
     */
    static method Create(text: string, blocks: seq<Block>, tokens: Tokeniser) returns (r: Result<PathManager>)
      ensures text == [] ==> r.Ok? && r.value.specs.None?
      ensures text != [] ==> (r.Ok? <==> ParsedJars(blocks).Ok?)
      ensures text != [] && r.Ok? ==> r.value.specs == Some(ParsedJars(blocks).value)
      ensures text != [] && r.Err? ==> r.error == ParsedJars(blocks).error
      ensures r.Ok? ==> fresh(r.value) && fresh(r.value.manager) && r.value.Valid() && r.value.text == text &&
                        r.value.tokens == tokens && !r.value.jarsRead && r.value.manager.jars == [] && r.value.manager.currJar == None
    {
      var specs: Option<Specimens> := None;
      if text != [] {
        var parsed := ParseJars(blocks);
        if parsed.Err? {
          return Err(parsed.error);
        }
        specs := Some(parsed.value);
      }
      var pm := new PathManager(text, specs, tokens);
      return Ok(pm);
    }

    /** `_read_jars()`: one jar per specimen, then `postprocess()`; the first error is raised. */
    method ReadJars() returns (r: Result<()>)
      requires Valid()
      modifies this, manager
      ensures Queried(old(ReadAll(specs, Steps(tokens), manager.jars, manager.currJar)))
      ensures r == old(ReadAll(specs, Steps(tokens), manager.jars, manager.currJar)).result
    {
      if specs.None? {
        return Err(AttributeError("items"));
      }
      var failure := ReadSpecimens(specs.value);
      if failure.Some? {
        return Err(failure.value);
      }
      manager.Postprocess(false);
      jarsRead := true;
      return Ok(());
    }

    /** The loop of `_read_jars` over the specimens, in key order, up to the first error. */
    method ReadSpecimens(sp: Specimens) returns (failure: Option<Error>)
      requires Valid() && Keyed(sp)
      modifies manager
      ensures manager.Valid()
      ensures Read(sp, Steps(tokens), |sp.keys|, Progress(old(manager.jars), old(manager.currJar), None)) ==
              Progress(manager.jars, manager.currJar, failure)
    {
      ghost var p0 := Progress(manager.jars, manager.currJar, None);
      ghost var rd := Steps(tokens);
      var i := 0;
      while i < |sp.keys|
        invariant i <= |sp.keys| && manager.Valid()
        invariant Read(sp, rd, i, p0) == Progress(manager.jars, manager.currJar, None)
      {
        failure := ReadSpecimenAt(sp, i, p0);
        if failure.Some? {
          return;
        }
        i := i + 1;
      }
      return None;
    }

    /** The specimen after the first i: the read goes on without an error, or stops for good. */
    method ReadSpecimenAt(sp: Specimens, i: nat, ghost p0: Progress) returns (failure: Option<Error>)
      requires manager.Valid() && Keyed(sp) && i < |sp.keys| && p0.failure.None?
      requires Read(sp, Steps(tokens), i, p0) == Progress(manager.jars, manager.currJar, None)
      modifies manager
      ensures manager.Valid()
      ensures failure.None? ==> Read(sp, Steps(tokens), i + 1, p0) == Progress(manager.jars, manager.currJar, None)
      ensures failure.Some? ==> Read(sp, Steps(tokens), |sp.keys|, p0) == Progress(manager.jars, manager.currJar, failure)
    {
      ghost var rd := Steps(tokens);
      var sections := sp.texts[sp.keys[i]];
      ReadNext(sp, rd, i, p0);
      assert Read(sp, rd, i + 1, p0) == ReadSpecimen(sections, rd, Progress(manager.jars, manager.currJar, None));
      failure := ReadSpecimenInto(sections);
      assert Read(sp, rd, i + 1, p0) == Progress(manager.jars, manager.currJar, failure);
      if failure.Some? {
        ReadStops(sp, rd, i + 1, p0);
      }
    }

    /** One specimen: the diagnosis section makes the current jar, and a second section can locate it. */
    method ReadSpecimenInto(sections: seq<string>) returns (failure: Option<Error>)
      requires manager.Valid()
      modifies manager
      ensures manager.Valid()
      ensures ReadSpecimen(sections, Steps(tokens), Progress(old(manager.jars), old(manager.currJar), None)) ==
              Progress(manager.jars, manager.currJar, failure)
    {
      ghost var rd := Steps(tokens);
      ghost var p := Progress(manager.jars, manager.currJar, None);
      if sections == [] {
        return Some(IndexError);
      }
      var c := Examine(sections[0]);
      if c.Err? {
        assert ReadSpecimen(sections, rd, p) == p.(failure := Some(c.error));
        return Some(c.error);
      }
      ghost var jar := rd.examine(sections[0]).value;
      ReadSpecimenJar(sections, rd, p);
      if |sections| > 1 {
        Locate(sections[1], p.jars, jar);
        var checked := manager.CheckDysplasia(sections[1]);
      }
      return None;
    }

    /** `cursory_diagnosis_examination` of a diagnosis section: on success its jar is appended and becomes the current jar. */
    method Examine(section: string) returns (r: Result<()>)
      requires manager.Valid()
      modifies manager
      ensures manager.Valid()
      ensures var ex := Steps(tokens).examine(section);
        (r.Ok? <==> ex.Ok?) &&
        (r.Ok? ==> manager.jars == old(manager.jars) + [ex.value] && manager.currJar == Some(|old(manager.jars)|)) &&
        (r.Err? ==> r.error == ex.error && manager.jars == old(manager.jars) && manager.currJar == old(manager.currJar))
    {
      ghost var ex := Examined(Tokenize(section, Spans(tokens, section)));
      assert Steps(tokens).examine(section) == ex;
      ghost var before := manager.jars;
      r := manager.CursoryDiagnosisExamination(section, Spans(tokens, section));
      assert r.Ok? ==> manager.jars == before + [ex.value];
      assert r.Ok? ==> |manager.jars| == |before| + 1;
      assert r.Ok? ==> manager.currJar == Some(|before|);
    }

    /** `find_locations` of a second section on the jar just appended. */
    method Locate(section: string, ghost front: seq<JarState>, ghost jar: JarState)
      requires manager.Valid() && manager.jars == front + [jar] && manager.currJar == Some(|front|)
      modifies manager
      ensures manager.Valid() && manager.currJar == old(manager.currJar)
      ensures manager.jars == front + [Steps(tokens).locate(section, jar)]
    {
      ghost var located := Located(Tokenize(section, Spans(tokens, section)), jar);
      assert Steps(tokens).locate(section, jar) == located;
      var found := manager.FindLocations(section, Spans(tokens, section));
      ReplaceLast(front, jar, located);
    }

    /** The `jarreader` decorator: read the jars if they have not been read. */
    method EnsureRead() returns (r: Result<()>)
      requires Valid()
      modifies this, manager
      ensures Queried(old(Pending())) && r == old(Pending()).result
    {
      if !jarsRead {
        r := ReadJars();
      } else {
        r := Ok(());
      }
    }

    /** `get_adenoma_count`, `get_adenoma_distal_count`, ... on the jars once read. */
    method GetAdenomaCount(m: AdenomaCountMethod, b: Bucket) returns (r: Result<Count>)
      requires Valid()
      modifies this, manager
      ensures Queried(old(Pending()))
      ensures r == Then(old(Pending()).result, Ok(AdenomaTotal(manager.jars, m, b)))
    {
      var read := EnsureRead();
      if read.Err? {
        return Err(read.error);
      }
      var count := manager.GetAdenomaCount(m, b);
      return Ok(count);
    }

    method GetSessileSerratedCount(jarCount: bool) returns (r: Result<nat>)
      requires Valid()
      modifies this, manager
      ensures Queried(old(Pending()))
      ensures r == Then(old(Pending()).result,
                        if jarCount then Ok(CountWhere(manager.jars, SessileSerratedJar)) else Err(NotImplementedError("jar_count is False")))
    {
      var read := EnsureRead();
      if read.Err? {
        return Err(read.error);
      }
      r := manager.GetSessileSerratedCount(jarCount);
    }

    method GetCarcinomaCount(jarCount: bool) returns (r: Result<nat>)
      requires Valid()
      modifies this, manager
      ensures Queried(old(Pending()))
      ensures r == Then(old(Pending()).result,
                        if jarCount then Ok(CountWhere(manager.jars, CarcinomaJar)) else Err(NotImplementedError("jar_count is False")))
    {
      var read := EnsureRead();
      if read.Err? {
        return Err(read.error);
      }
      r := manager.GetCarcinomaCount(jarCount);
    }

    /** `get_carcinoma_maybe_count(jar_count)`: probable_only keeps its default, False. */
    method GetCarcinomaMaybeCount(jarCount: bool) returns (r: Result<nat>)
      requires Valid()
      modifies this, manager
      ensures Queried(old(Pending()))
      ensures r == Then(old(Pending()).result,
                        if jarCount then MaybeTally(manager.jars, false) else Err(NotImplementedError("jar_count is False")))
    {
      var read := EnsureRead();
      if read.Err? {
        return Err(read.error);
      }
      r := manager.GetCarcinomaMaybeCount(jarCount, false);
    }

    /** `get_carcinoma_in_situ_count(jar_count)`: a colon jar has no in-situ counter to read. */
    method GetCarcinomaInSituCount(jarCount: bool) returns (r: Result<nat>)
      requires Valid()
      modifies this, manager
      ensures Queried(old(Pending()))
      ensures old(Pending()).result.Err? ==> r == Err(old(Pending()).result.error)
      ensures old(Pending()).result.Ok? && !jarCount ==> r == Err(NotImplementedError("jar_count is False"))
      ensures old(Pending()).result.Ok? && jarCount ==>
        r == if exists i :: 0 <= i < |manager.jars| && AllInColon(manager.jars[i]) then Err(AttributeError("carcinomas_in_situ")) else Ok(0)
    {
      var read := EnsureRead();
      if read.Err? {
        return Err(read.error);
      }
      r := manager.GetCarcinomaInSituCount(jarCount);
    }

    /** `get_carcinoma_in_situ_maybe_count(jar_count)`, with probable_only False. */
    method GetCarcinomaInSituMaybeCount(jarCount: bool) returns (r: Result<nat>)
      requires Valid()
      modifies this, manager
      ensures Queried(old(Pending()))
      ensures old(Pending()).result.Err? ==> r == Err(old(Pending()).result.error)
      ensures old(Pending()).result.Ok? && !jarCount ==> r == Err(NotImplementedError("jar_count is False"))
      ensures old(Pending()).result.Ok? && jarCount ==>
        r == if exists i :: 0 <= i < |manager.jars| && MaybeCandidate(manager.jars[i]) then Err(AttributeError("carcinomas_in_situ_maybe")) else Ok(0)
    {
      var read := EnsureRead();
      if read.Err? {
        return Err(read.error);
      }
      r := manager.GetCarcinomaInSituMaybeCount(jarCount, false);
    }

    /** `get_histology(category, allow_maybe)`. */
    method GetHistology(h: Histology, allowMaybe: bool) returns (r: Result<HistologyCounts>)
      requires Valid()
      modifies this, manager
      ensures Queried(old(Pending()))
      ensures r == Then(old(Pending()).result, Ok(HistologyTally(manager.jars, h, allowMaybe)))
    {
      var read := EnsureRead();
      if read.Err? {
        return Err(read.error);
      }
      var counts := manager.GetHistology(h, allowMaybe);
      return Ok(counts);
    }

    /** `has_dysplasia()`: whether any jar has positive dysplasia. */
    method HasDysplasia() returns (r: Result<bool>)
      requires Valid()
      modifies this, manager
      ensures Queried(old(Pending()))
      ensures old(Pending()).result.Err? ==> r == Err(old(Pending()).result.error)
      ensures old(Pending()).result.Ok? ==>
        r == Ok(exists i :: 0 <= i < |manager.jars| && PositiveDysplasia(manager.jars[i]))
    {
      var read := EnsureRead();
      if read.Err? {
        return Err(read.error);
      }
      var d := manager.HasDysplasia();
      return Ok(d);
    }

    /**
     * The location generators: with adenoma, with a large adenoma (at least
     * 10), with an adenoma of unknown size.
     */
    method GetLocationsWith(sel: Selection) returns (r: Result<seq<Option<Segment>>>)
      requires Valid() && (sel == WithAdenoma || sel == AdenomaMinSize(10.0) || sel == AdenomaUnknownSize)
      modifies this, manager
      ensures Queried(old(Pending()))
      ensures r == Then(old(Pending()).result, Ok(LocationsWith(manager.jars, sel)))
    {
      var read := EnsureRead();
      if read.Err? {
        return Err(read.error);
      }
      var locs := manager.GetLocationsWith(sel);
      return Ok(locs);
    }

    /** `get_locations_with_adenoma_size(min_size, max_size)` and `get_locations_with_size`: the minimum-size locations, then the maximum-size ones. */
    method GetLocationsWithSize(adenoma: bool, minSize: Option<real>, maxSize: Option<real>) returns (r: Result<seq<Option<Segment>>>)
      requires Valid()
      modifies this, manager
      ensures Queried(old(Pending()))
      ensures r == Then(old(Pending()).result, Ok(
        (if minSize.Some? then LocationsWith(manager.jars, if adenoma then AdenomaMinSize(minSize.value) else MinSize(minSize.value)) else []) +
        (if maxSize.Some? then LocationsWith(manager.jars, if adenoma then AdenomaMaxSize(maxSize.value) else MaxSize(maxSize.value)) else [])))
    {
      var read := EnsureRead();
      if read.Err? {
        return Err(read.error);
      }
      var low: seq<Option<Segment>> := [];
      if minSize.Some? {
        low := manager.GetLocationsWith(if adenoma then AdenomaMinSize(minSize.value) else MinSize(minSize.value));
      }
      var high: seq<Option<Segment>> := [];
      if maxSize.Some? {
        high := manager.GetLocationsWith(if adenoma then AdenomaMaxSize(maxSize.value) else MaxSize(maxSize.value));
      }
      return Ok(low + high);
    }
  }
}
