/**
 * String helpers with Python's meaning: `str.lower()` (ASCII letters only),
 * `in` on strings (substring), `startswith`/`endswith`, `strip`, `find`,
 * `split`, `join`, `replace`, and the numeric reading of digit strings.
 */
module Text {
  import opened Wrappers

  predicate IsUpper(c: char) { 'A' <= c <= 'Z' }
  predicate IsLower(c: char) { 'a' <= c <= 'z' }
  predicate IsDigit(c: char) { '0' <= c <= '9' }
  predicate IsAlpha(c: char) { IsUpper(c) || IsLower(c) }

  /** Python's whitespace characters in the ASCII range. */
  predicate IsSpace(c: char) { c == ' ' || c == '\t' || c == '\n' || c == '\r' || c == '\U{000B}' || c == '\U{000C}' }

  function LowerChar(c: char): (r: char)
    ensures IsUpper(c) ==> IsLower(r)
    ensures !IsUpper(c) ==> r == c
  {
    if IsUpper(c) then (c as int + 32) as char else c
  }

  function Lower(s: string): (r: string)
    ensures |r| == |s|
    ensures forall i :: 0 <= i < |s| ==> r[i] == LowerChar(s[i])
  {
    if s == [] then [] else [LowerChar(s[0])] + Lower(s[1..])
  }

  lemma LowerIdempotent(s: string)
    ensures Lower(Lower(s)) == Lower(s)
  {
  }

  predicate StartsWith(s: string, p: string) { |p| <= |s| && s[..|p|] == p }
  predicate EndsWith(s: string, p: string) { |p| <= |s| && s[|s| - |p|..] == p }

  /** `p in s` for two strings. */
  predicate Contains(s: string, p: string)
    decreases |s|
  {
    StartsWith(s, p) || (|s| > 0 && Contains(s[1..], p))
  }

  /** `s.find(p)`, as an Option. */
  function Find(s: string, p: string): (r: Option<nat>)
    ensures r.Some? ==> r.value + |p| <= |s| && s[r.value..r.value + |p|] == p
    ensures r.Some? ==> forall k :: 0 <= k < r.value ==> !StartsWith(s[k..], p)
    ensures r.None? <==> !Contains(s, p)
    decreases |s|
  {
    if StartsWith(s, p) then Some(0)
    else if |s| == 0 then None
    else match Find(s[1..], p)
      case None => None
      case Some(k) =>
        assert s[k + 1..k + 1 + |p|] == s[1..][k..k + |p|];
        assert forall j :: 0 < j <= k ==> s[j..] == s[1..][j - 1..];
        Some(k + 1)
  }

  /** `s.strip()`. */
  function StripStart(s: string): (r: string)
    ensures |r| <= |s| && EndsWith(s, r)
    ensures r != [] ==> !IsSpace(r[0])
  {
    if s != [] && IsSpace(s[0]) then StripStart(s[1..]) else s
  }

  function StripEnd(s: string): (r: string)
    ensures |r| <= |s| && StartsWith(s, r)
    ensures r != [] ==> !IsSpace(r[|r| - 1])
  {
    if s != [] && IsSpace(s[|s| - 1]) then StripEnd(s[..|s| - 1]) else s
  }

  function Strip(s: string): string { StripEnd(StripStart(s)) }

  /** `sep.join(parts)`. */
  function Join(parts: seq<string>, sep: string): string
  {
    if parts == [] then "" else if |parts| == 1 then parts[0] else parts[0] + sep + Join(parts[1..], sep)
  }

  /** `s.replace(p, q)` for a non-empty p: every non-overlapping occurrence, left to right. */
  function ReplaceAll(s: string, p: string, q: string): string
    requires p != []
    decreases |s|
  {
    if s == [] then []
    else if StartsWith(s, p) then q + ReplaceAll(s[|p|..], p, q)
    else [s[0]] + ReplaceAll(s[1..], p, q)
  }

  /** `s.split()`: the maximal runs of non-whitespace characters. */
  function SplitWhitespace(s: string): (r: seq<string>)
    ensures forall i :: 0 <= i < |r| ==> r[i] != [] && forall j :: 0 <= j < |r[i]| ==> !IsSpace(r[i][j])
    decreases |s|
  {
    var t := StripStart(s);
    if t == [] then []
    else
      var w := Word(t);
      [w] + SplitWhitespace(t[|w|..])
  }

  /** The leading run of non-whitespace characters. */
  function Word(s: string): (r: string)
    ensures |r| <= |s| && StartsWith(s, r)
    ensures forall j :: 0 <= j < |r| ==> !IsSpace(r[j])
    ensures s != [] && !IsSpace(s[0]) ==> r != []
  {
    if s == [] || IsSpace(s[0]) then [] else [s[0]] + Word(s[1..])
  }

  predicate AllDigits(s: string) { forall i :: 0 <= i < |s| ==> IsDigit(s[i]) }

  /** `int(s)` for a string of ASCII digits. */
  function DigitsValue(s: string): (r: nat)
    requires AllDigits(s)
  {
    if s == [] then 0 else DigitsValue(s[..|s| - 1]) * 10 + (s[|s| - 1] as int - '0' as int)
  }

  function Pow10(k: nat): (r: nat)
    ensures r >= 1
  {
    if k == 0 then 1 else 10 * Pow10(k - 1)
  }

  /** `float(s)` for digit strings with at most one '.', as the matching patterns produce ("12", "12.", "1.25"). */
  function DecimalValue(s: string): (r: Option<real>)
    ensures AllDigits(s) && s != [] ==> r == Some(DigitsValue(s) as real)
  {
    match Find(s, ".")
      case None => if s != [] && AllDigits(s) then Some(DigitsValue(s) as real) else None
      case Some(k) =>
        assert s[k..k + 1] == "." && !IsDigit(s[k]);
        var whole, frac := s[..k], s[k + 1..];
        if (whole != [] || frac != []) && AllDigits(whole) && AllDigits(frac) then
          Some(DigitsValue(whole) as real + DigitsValue(frac) as real / Pow10(|frac|) as real)
        else None
  }

  /**
   * Membership of a word in a vocabulary list (Python's `w in [...]`).
   * Written as a recursion so that the verifier only unfolds a vocabulary
   * when a proof needs a particular entry.
   */
  predicate Among(k: string, ks: seq<string>)
    decreases |ks|
  {
    ks != [] && (ks[0] == k || Among(k, ks[1..]))
  }

  lemma {:induction false} AmongIsIn(k: string, ks: seq<string>)
    ensures Among(k, ks) <==> k in ks
    decreases |ks|
  {
    if ks != [] {
      AmongIsIn(k, ks[1..]);
      assert ks == [ks[0]] + ks[1..];
    }
  }

  /** A dictionary lookup (`d.get(k)`) over a table of entries kept in the dictionary's order. */
  function Lookup<V>(table: seq<(string, V)>, k: string): (r: Option<V>)
    ensures r.Some? ==> exists i :: 0 <= i < |table| && table[i] == (k, r.value)
    decreases |table|
  {
    if table == [] then None
    else if table[0].0 == k then Some(table[0].1)
    else Lookup(table[1..], k)
  }

  function Keys<V>(table: seq<(string, V)>): (r: seq<string>)
    ensures |r| == |table| && forall i :: 0 <= i < |table| ==> r[i] == table[i].0
  {
    if table == [] then [] else [table[0].0] + Keys(table[1..])
  }

  lemma {:induction false} LookupFindsKeys<V>(table: seq<(string, V)>, k: string)
    ensures Lookup(table, k).Some? <==> k in Keys(table)
    decreases |table|
  {
    if table != [] {
      LookupFindsKeys(table[1..], k);
      assert Keys(table) == [table[0].0] + Keys(table[1..]);
    }
  }

  /** Python's `s[:k]` for any integer k (a negative k counts from the end). */
  function Take<T>(s: seq<T>, k: int): (r: seq<T>)
    ensures |r| <= |s| && r == s[..|r|]
    ensures 0 <= k <= |s| ==> |r| == k
    ensures k < 0 ==> |r| == if |s| + k >= 0 then |s| + k else 0
  {
    if k >= |s| then s else if k >= 0 then s[..k] else if |s| + k >= 0 then s[..|s| + k] else []
  }

  /** Python's `s[k:]` for any integer k. */
  function Drop<T>(s: seq<T>, k: int): (r: seq<T>)
    ensures Take(s, k) + r == s
  {
    s[|Take(s, k)|..]
  }
}
