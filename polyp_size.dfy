/**
 * PolypSize: the dimensions of a polyp in millimetres, as up to three
 * "min" dimensions and up to three "max" dimensions (for a range such as
 * "4 to 6 mm"), largest first when parsed from text.
 */
module PolypSizes {
  import opened Wrappers
  import opened Text

  /** The fields of a PolypSize object; `count` is always 1. */
  datatype PolypSize = PolypSize(count: nat, minSize: seq<real>, maxSize: seq<real>)

  /** Each value is at most the next one. */
  predicate Ascending(s: seq<real>) { forall i :: 0 < i < |s| ==> s[i - 1] <= s[i] }
  /** Each value is at least the next one. */
  predicate Descending(s: seq<real>) { forall i :: 0 < i < |s| ==> s[i - 1] >= s[i] }

  /** Ascending neighbours make the whole sequence ordered. */
  lemma {:induction false} AscendingOrdered(s: seq<real>)
    requires Ascending(s)
    ensures forall i, j :: 0 <= i <= j < |s| ==> s[i] <= s[j]
    decreases |s|
  {
    if |s| > 1 {
      var front := s[..|s| - 1];
      AscendingOrdered(front);
      forall i, j | 0 <= i <= j < |s| ensures s[i] <= s[j] {
        if j < |s| - 1 {
          assert front[i] <= front[j];
        } else if i < j {
          assert front[i] <= front[j - 1];
        }
      }
    }
  }

  function Insert(x: real, s: seq<real>): (r: seq<real>)
    requires Ascending(s)
    ensures |r| == |s| + 1 && (r[0] == x || (s != [] && r[0] == s[0]))
    ensures multiset(r) == multiset(s) + multiset{x}
    ensures Ascending(r)
    decreases |s|
  {
    if s == [] || x <= s[0] then [x] + s
    else
      var rest := Insert(x, s[1..]);
      assert s == [s[0]] + s[1..];
      [s[0]] + rest
  }

  /** `sorted(s)`. */
  function SortAsc(s: seq<real>): (r: seq<real>)
    ensures Ascending(r) && multiset(r) == multiset(s) && |r| == |s|
  {
    if s == [] then []
    else
      assert s == [s[0]] + s[1..];
      Insert(s[0], SortAsc(s[1..]))
  }

  function Reverse(s: seq<real>): (r: seq<real>)
    ensures |r| == |s| && forall k :: 0 <= k < |s| ==> r[k] == s[|s| - 1 - k]
    ensures multiset(r) == multiset(s)
  {
    if s == [] then [] else
      assert s == [s[0]] + s[1..];
      Reverse(s[1..]) + [s[0]]
  }

  /** `sorted(s, reverse=True)`. */
  function SortDesc(s: seq<real>): (r: seq<real>)
    ensures Descending(r) && multiset(r) == multiset(s) && |r| == |s|
  {
    Reverse(SortAsc(s))
  }

  /** The smallest value of a non-empty sequence. */
  function Minimum(s: seq<real>): (r: real)
    requires s != []
    ensures r in s && forall x :: x in s ==> r <= x
  {
    if |s| == 1 then s[0]
    else
      var m := Minimum(s[1..]);
      assert forall x :: x in s ==> x == s[0] || x in s[1..];
      if s[0] <= m then s[0] else m
  }

  /** The first element of a sorted sequence is its minimum. */
  lemma {:induction false} AscendingHeadIsMinimum(s: seq<real>, t: seq<real>)
    requires Ascending(s) && s != [] && multiset(s) == multiset(t)
    ensures t != [] && s[0] == Minimum(t)
  {
    AscendingOrdered(s);
    assert s[0] in multiset(t);
    assert forall x :: x in t ==> x in multiset(s);
    var m := Minimum(t);
    assert m in multiset(s);
    var k :| 0 <= k < |s| && s[k] == m;
    assert s[0] in t && s[0] <= s[k];
  }

  /**
   * `PolypSize.set(*args)`: the values in millimetres, ascending; more than
   * three values fill max_size with the first three and min_size with the
   * next three, otherwise both hold all of them.
   */
  function Set(args: seq<real>): (r: PolypSize)
    ensures r.count == 1
    ensures |args| <= 3 ==> r.minSize == r.maxSize && Ascending(r.maxSize) && multiset(r.maxSize) == multiset(args)
    ensures |args| > 3 ==> |r.maxSize| == 3 && |r.minSize| == (if |args| < 6 then |args| else 6) - 3
    ensures Ascending(r.maxSize) && Ascending(r.minSize)
    ensures |args| > 3 ==> forall x, y :: x in r.maxSize && y in r.minSize ==> x <= y
    ensures |args| > 3 ==> multiset(r.maxSize + r.minSize) <= multiset(args)
    ensures 3 < |args| <= 6 ==> multiset(r.maxSize + r.minSize) == multiset(args)
    ensures |args| > 6 ==> forall x, y :: x in multiset(args) - multiset(r.maxSize + r.minSize) && y in r.minSize ==> y <= x
    ensures |args| > 3 ==> r.maxSize == SortAsc(args)[..3] && r.minSize == SortAsc(args)[3..if |args| < 6 then |args| else 6]
  {
    var sorted := SortAsc(args);
    if |args| > 3 then
      var hi := if |sorted| < 6 then |sorted| else 6;
      SplitAscending(sorted, hi);
      DroppedAreLargest(sorted, hi);
      PolypSize(1, sorted[3..hi], sorted[..3])
    else
      PolypSize(1, sorted, sorted)
  }

  /** The first three values of an ascending sequence and the ones up to hi: both ascending, the first no larger, together part of it. */
  lemma SplitAscending(s: seq<real>, hi: nat)
    requires Ascending(s) && 3 <= hi <= |s|
    ensures Ascending(s[..3]) && Ascending(s[3..hi])
    ensures forall x, y :: x in s[..3] && y in s[3..hi] ==> x <= y
    ensures multiset(s[..3] + s[3..hi]) <= multiset(s)
    ensures hi == |s| ==> multiset(s[..3] + s[3..hi]) == multiset(s)
  {
    AscendingOrdered(s);
    assert s == s[..3] + s[3..hi] + s[hi..];
    assert s[..hi] == s[..3] + s[3..hi];
  }

  /** What a sequence holds beyond its first three values and the ones up to hi is what follows hi. */
  lemma RestAfter(s: seq<real>, hi: nat)
    requires 3 <= hi <= |s|
    ensures multiset(s) - multiset(s[..3] + s[3..hi]) == multiset(s[hi..])
  {
    assert s[..3] + s[3..hi] == s[..hi];
    assert s == s[..hi] + s[hi..];
  }

  /** The values an ascending sequence leaves out after hi are no smaller than the ones it keeps from 3 to hi. */
  lemma DroppedAreLargest(s: seq<real>, hi: nat)
    requires Ascending(s) && 3 <= hi <= |s|
    ensures forall x, y :: x in multiset(s) - multiset(s[..3] + s[3..hi]) && y in s[3..hi] ==> y <= x
  {
    AscendingOrdered(s);
    RestAfter(s, hi);
    forall x, y | x in multiset(s[hi..]) && y in s[3..hi]
      ensures y <= x
    {
      assert x in s[hi..];
      var i :| hi <= i < |s| && s[i] == x;
      var j :| 3 <= j < hi && s[j] == y;
      assert s[j] <= s[i];
    }
  }

  /**
   * One group of `_parse_groups`: `float(m) * 10` in centimetres, else `float(m)`;
   * a group that is not a number is the ValueError `float` raises.
   */
  function Scaled(groups: seq<string>, cm: bool): (r: Result<seq<real>>)
    ensures r.Ok? ==> |r.value| == |groups|
    ensures r.Ok? ==> forall i :: 0 <= i < |groups| ==>
      DecimalValue(groups[i]).Some? && r.value[i] == Millimetres(DecimalValue(groups[i]).value, cm)
    ensures r.Err? <==> exists i :: 0 <= i < |groups| && DecimalValue(groups[i]).None?
  {
    if groups == [] then Ok([])
    else match DecimalValue(groups[0])
      case None => Err(ValueError("could not convert string to float"))
      case Some(v) =>
        match Scaled(groups[1..], cm)
        case Err(e) =>
          var i :| 0 <= i < |groups[1..]| && DecimalValue(groups[1..][i]).None?;
          assert DecimalValue(groups[i + 1]).None?;
          Err(e)
        case Ok(rest) =>
          ScaledRest(groups, cm, v, rest);
          Ok([Millimetres(v, cm)] + rest)
  }

  /** The first group's value in front of the rest's values meets Scaled's contract. */
  lemma ScaledRest(groups: seq<string>, cm: bool, v: real, rest: seq<real>)
    requires groups != [] && DecimalValue(groups[0]) == Some(v) && |rest| == |groups| - 1
    requires forall i :: 0 <= i < |groups| - 1 ==>
      DecimalValue(groups[1..][i]).Some? && rest[i] == Millimetres(DecimalValue(groups[1..][i]).value, cm)
    ensures forall i :: 0 <= i < |groups| ==>
      DecimalValue(groups[i]).Some? && ([Millimetres(v, cm)] + rest)[i] == Millimetres(DecimalValue(groups[i]).value, cm)
    ensures forall i :: 0 <= i < |groups| ==> DecimalValue(groups[i]).Some?
  {
    forall i | 1 <= i < |groups|
      ensures groups[i] == groups[1..][i - 1]
    {
    }
  }

  /** A value read in the given unit, in millimetres. */
  function Millimetres(v: real, cm: bool): real { if cm then v * 10.0 else v }

  /**
   * `_parse_groups`: the matched (non-empty) groups of one kind, converted to
   * millimetres, largest first.
   */
  function ParseGroups(groups: seq<string>, cm: bool): (r: Result<seq<real>>)
    ensures r.Ok? ==> Descending(r.value) && |r.value| == |groups|
    ensures r.Ok? <==> Scaled(groups, cm).Ok?
    ensures r.Ok? ==> multiset(r.value) == multiset(Scaled(groups, cm).value)
  {
    match Scaled(groups, cm)
    case Err(e) => Err(e)
    case Ok(vs) => Ok(SortDesc(vs))
  }

  /**
   * What `PolypSize.PATTERN.match(text)` yields: the whole matched text, the
   * non-empty `min1..min3` and `max1..max3` groups in order, and the unit
   * groups that matched.
   */
  datatype SizeMatch = SizeMatch(whole: string, mins: seq<string>, maxs: seq<string>, units: seq<string>)

  /** The matched text shows a second dimension or a range. */
  predicate MultiDimensional(whole: string) {
    Contains(whole, "x") || Contains(whole, "-") || Contains(whole, "to") || Contains(whole, "and")
  }

  /** `PolypSize(text)`: the checks of `_parse_text` after the match, in the order they are made. */
  function ParseText(m: Option<SizeMatch>): (r: Result<PolypSize>)
    ensures m.None? ==> r.Err?
    ensures r.Ok? ==> MultiDimensional(m.value.whole)
    ensures r.Ok? ==> r.value.count == 1 && r.value.minSize != [] && r.value.maxSize != []
    ensures r.Ok? ==> r.value.minSize[0] < 100.0 && r.value.maxSize[0] < 100.0
    ensures r.Ok? ==> Descending(r.value.minSize) && Descending(r.value.maxSize)
    ensures r.Ok? ==> |m.value.mins| + |m.value.maxs| >= 2
    ensures r.Ok? && m.value.maxs == [] ==> r.value.maxSize == r.value.minSize
  {
    if m.None? then Err(ValueError("Text does not match pattern!"))
    else
      var g := m.value;
      if !MultiDimensional(g.whole) then Err(ValueError("Only one-dimensional value: " + g.whole))
      else
        var cm := "cm" in g.units;
        match ParseGroups(g.mins, cm)
        case Err(e) => Err(e)
        case Ok(mn) =>
          match ParseGroups(g.maxs, cm)
          case Err(e) => Err(e)
          case Ok(mx) =>
            var maxSize := if mx != [] then mx else mn;
            if mn == [] then Err(IndexError)
            else if mn[0] >= 100.0 then Err(ValueError("Too big!"))
            else if maxSize[0] >= 100.0 then Err(ValueError("Too big!"))
            else if |mn| + |mx| <= 1 then Err(ValueError("Only one-dimensional value: " + g.whole))
            else Ok(PolypSize(1, mn, maxSize))
  }

  /** A leading dimension of 100 mm or more is rejected as too big. */
  lemma TooBigRejected(m: SizeMatch)
    requires MultiDimensional(m.whole)
    requires ParseGroups(m.mins, "cm" in m.units).Ok?
    requires ParseGroups(m.maxs, "cm" in m.units).Ok?
    requires ParseGroups(m.mins, "cm" in m.units).value != []
    requires ParseGroups(m.mins, "cm" in m.units).value[0] >= 100.0
    ensures ParseText(Some(m)) == Err(ValueError("Too big!"))
  {
  }

  /**
   * A dimension and a range end both under 100 mm are accepted: the max
   * dimensions are the parsed max groups, or the min ones when there are none.
   */
  lemma ParseTextAccepts(m: SizeMatch, mn: seq<real>, mx: seq<real>)
    requires MultiDimensional(m.whole)
    requires ParseGroups(m.mins, "cm" in m.units) == Ok(mn) && ParseGroups(m.maxs, "cm" in m.units) == Ok(mx)
    requires mn != [] && mn[0] < 100.0 && (mx == [] || mx[0] < 100.0) && |mn| + |mx| >= 2
    ensures ParseText(Some(m)) == Ok(PolypSize(1, mn, if mx != [] then mx else mn))
  {
  }

  /** A single dimension with no range is rejected, whatever the matched text says. */
  lemma OneDimensionRejected(m: SizeMatch)
    requires |m.mins| + |m.maxs| <= 1
    ensures ParseText(Some(m)).Err?
  {
  }

  /** `get_max_dim`: the first max dimension; an empty one is an IndexError. */
  function GetMaxDim(p: PolypSize): (r: Result<real>)
    ensures r.Ok? <==> p.maxSize != []
    ensures r.Ok? ==> r.value == p.maxSize[0]
  {
    if p.maxSize == [] then Err(IndexError) else Ok(p.maxSize[0])
  }

  /** For one value, `set(s).get_max_dim()` is s. */
  lemma SetOneMaxDim(s: real)
    ensures GetMaxDim(Set([s])) == Ok(s)
  {
    assert SortAsc([s]) == [s];
  }

  /**
   * Because `set` sorts ascending, the "maximum dimension" of a size set with
   * several values is their smallest value.
   */
  lemma SetMaxDimIsSmallest(args: seq<real>)
    requires args != []
    ensures GetMaxDim(Set(args)) == Ok(Minimum(args))
  {
    AscendingHeadIsMinimum(SortAsc(args), args);
  }

  /** The right operand of `<`: another PolypSize or some other object. */
  datatype Operand = Size(size: PolypSize) | NotASize

  /** `a < b`: compares the maximum dimensions; any other operand is a ValueError. */
  function Less(a: PolypSize, b: Operand): (r: Result<bool>)
    ensures b.NotASize? ==> r.Err? && r.error.ValueError?
    ensures b.Size? && a.maxSize != [] && b.size.maxSize != [] ==> r == Ok(a.maxSize[0] < b.size.maxSize[0])
  {
    match b
    case NotASize => Err(ValueError("PolypSize object not sortable"))
    case Size(q) =>
      match GetMaxDim(a)
      case Err(e) => Err(e)
      case Ok(x) =>
        match GetMaxDim(q)
        case Err(e) => Err(e)
        case Ok(y) => Ok(x < y)
  }
}
