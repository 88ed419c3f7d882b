/**
 * MaybeCounter: an integer count that may carry an "at least" (>=) or a
 * "greater than" (>) qualifier, with a three-valued comparison
 * (1 = certainly, 0 = possibly, -1 = no).
 */
module MaybeCounters {
  import opened Wrappers

  /** The value held by one MaybeCounter object. */
  datatype Count = Count(count: int, atLeast: bool, greaterThan: bool)

  /** `GREATER_THAN_LIMIT`: how far a qualified count may reach when asked "maybe?". */
  const GreaterThanLimit: nat := 1

  /** An unqualified count. */
  function Exact(n: int): Count { Count(n, false, false) }

  predicate IsExact(c: Count) { !c.atLeast && !c.greaterThan }

  /** Python's `int(bool)`. */
  function Bump(b: bool): int { if b then 1 else 0 }

  /** The constructor: both qualifiers at once is a ValueError. */
  function Make(count: int, atLeast: bool, greaterThan: bool): (r: Result<Count>)
    ensures r.Err? <==> atLeast && greaterThan
    ensures r.Ok? ==> r.value.count == count && r.value.atLeast == atLeast && r.value.greaterThan == greaterThan
  {
    if atLeast && greaterThan then Err(ValueError("Value may only be \"at_least\" or \"greater_than\"."))
    else Ok(Count(count, atLeast, greaterThan))
  }

  /**
   * The value after `add(n, greater_than, at_least)`: a negative n is ignored;
   * otherwise a "greater than" on either side is folded into the count (+1 each)
   * and the result is "at least" as soon as anything was qualified.
   */
  function Added(c: Count, n: int, greaterThan: bool, atLeast: bool): (r: Count)
    ensures n < 0 ==> r == c
    ensures n >= 0 ==> r.count == c.count + n + Bump(c.greaterThan) + Bump(greaterThan)
    ensures n >= 0 ==> !r.greaterThan
    ensures n >= 0 ==> (r.atLeast <==> c.atLeast || c.greaterThan || atLeast || greaterThan)
  {
    if n < 0 then c
    else
      var al := c.atLeast || c.greaterThan || atLeast || greaterThan;
      var total :=
        if c.greaterThan && greaterThan then c.count + n + 2
        else if c.greaterThan || greaterThan then c.count + n + 1
        else c.count + n;
      Count(total, al, false)
  }

  /** `a + n` for an int n: the count moves, the qualifiers stay. */
  function PlusInt(a: Count, n: int): (r: Count)
    ensures r.count == a.count + n && r.atLeast == a.atLeast && r.greaterThan == a.greaterThan
  {
    a.(count := a.count + n)
  }

  /** `a + b` for two counters. */
  function Plus(a: Count, b: Count): (r: Count)
    ensures r.count == a.count + b.count + Bump(a.greaterThan) + Bump(b.greaterThan)
    ensures !r.greaterThan
    ensures r.atLeast <==> a.atLeast || a.greaterThan || b.atLeast || b.greaterThan
  {
    var total :=
      if a.greaterThan && b.greaterThan then a.count + b.count + 2
      else if a.greaterThan || b.greaterThan then a.count + b.count + 1
      else a.count + b.count;
    Count(total, a.atLeast || a.greaterThan || b.atLeast || b.greaterThan, false)
  }

  /** `a - n` for an int n. */
  function MinusInt(a: Count, n: int): (r: Count)
    ensures r.count == a.count - n && r.atLeast == a.atLeast && r.greaterThan == a.greaterThan
  {
    a.(count := a.count - n)
  }

  /**
   * `a - b` for two counters: a one-sided "greater than" moves the count by one
   * towards the qualified side and cancels an "at least" on the other side.
   */
  function Minus(a: Count, b: Count): (r: Count)
    ensures !r.greaterThan
    ensures a.greaterThan == b.greaterThan ==>
      r.count == a.count - b.count && (r.atLeast <==> a.atLeast || a.greaterThan || b.atLeast || b.greaterThan)
    ensures a.greaterThan && !b.greaterThan ==> r.count == a.count - b.count + 1 && (r.atLeast <==> !b.atLeast)
    ensures b.greaterThan && !a.greaterThan ==> r.count == a.count - b.count - 1 && (r.atLeast <==> !a.atLeast)
  {
    var al := a.atLeast || a.greaterThan || b.atLeast || b.greaterThan;
    if a.greaterThan && !b.greaterThan then
      Count(a.count - b.count + 1, if b.atLeast then false else al, false)
    else if b.greaterThan && !a.greaterThan then
      Count(a.count - b.count - 1, if a.atLeast then false else al, false)
    else
      Count(a.count - b.count, al, false)
  }

  /** `bool(c)`. */
  predicate Truthy(c: Count) { c.count > 0 || c.greaterThan }

  /**
   * The values a qualified counter is taken to possibly stand for when a
   * comparison asks "maybe?": `>c` covers c+1 .. c+limit and `>=c` covers
   * c .. c+limit-1 (`limit` is GREATER_THAN_LIMIT; 0 switches "maybe" off).
   */
  predicate InWindow(c: Count, n: int, limit: nat) {
    limit != 0 &&
    ((c.greaterThan && c.count < n <= c.count + limit) ||
     (c.atLeast && c.count <= n <= c.count + limit - 1))
  }

  /** `c.gt(n)` with GREATER_THAN_LIMIT = limit. */
  function Gt(c: Count, n: int, limit: nat): (r: int)
    ensures r == 1 <==> c.count > n || (c.count == n && c.greaterThan)
    ensures r == 0 <==> (c.count == n && !c.greaterThan && c.atLeast) || (c.count < n && InWindow(c, n, limit))
    ensures r == -1 || r == 0 || r == 1
  {
    if c.count > n then 1
    else if c.count == n then
      (if c.greaterThan then 1 else if c.atLeast then 0 else -1)
    else if limit != 0 && c.greaterThan && c.count + limit >= n then 0
    else if limit != 0 && c.atLeast && c.count + limit - 1 >= n then 0
    else -1
  }

  /** `c.eq(n)` with GREATER_THAN_LIMIT = limit. */
  function Eq(c: Count, n: int, limit: nat): (r: int)
    ensures r == 1 <==> c.count == n && IsExact(c)
    ensures r == 0 <==> (c.count == n && !c.greaterThan && c.atLeast) || (c.count != n && InWindow(c, n, limit))
    ensures r == -1 || r == 0 || r == 1
  {
    if c.count == n then
      (if c.greaterThan then -1 else if c.atLeast then 0 else 1)
    else if limit != 0 then
      (if c.greaterThan && c.count < n <= c.count + limit then 0
       else if c.atLeast && c.count - 1 < n <= c.count - 1 + limit then 0
       else -1)
    else -1
  }

  /** Adding through `add` is the same as adding the counter that the arguments describe. */
  lemma AddedIsPlus(c: Count, n: int, greaterThan: bool, atLeast: bool)
    requires n >= 0
    ensures Added(c, n, greaterThan, atLeast) == Plus(c, Count(n, atLeast, greaterThan))
  {
  }

  lemma PlusCommutes(a: Count, b: Count)
    ensures Plus(a, b) == Plus(b, a)
  {
  }

  lemma PlusAssociates(a: Count, b: Count, c: Count)
    ensures Plus(Plus(a, b), c) == Plus(a, Plus(b, c))
  {
  }

  /** Exact counters add like integers. */
  lemma PlusExact(m: int, n: int)
    ensures Plus(Exact(m), Exact(n)) == Exact(m + n)
  {
  }

  /** Subtracting an exact counter undoes adding it, up to folding a "greater than" into the count. */
  lemma MinusUndoesPlus(a: Count, b: Count)
    requires IsExact(b)
    ensures Minus(Plus(a, b), b) == Plus(a, Exact(0))
  {
  }

  /** "Possibly greater" and "possibly equal" are the same question. */
  lemma GtMaybeIffEqMaybe(c: Count, n: int, limit: nat)
    ensures Gt(c, n, limit) == 0 <==> Eq(c, n, limit) == 0
  {
  }

  /** A certain "greater than n" stays certain for every smaller n. */
  lemma GtMonotone(c: Count, m: int, n: int, limit: nat)
    requires m <= n && Gt(c, n, limit) == 1
    ensures Gt(c, m, limit) == 1
  {
  }

  /** For a non-negative count, truthiness is "certainly more than zero". */
  lemma TruthyIffGtZero(c: Count, limit: nat)
    requires c.count >= 0
    ensures Truthy(c) <==> Gt(c, 0, limit) == 1
  {
  }

  /** E.g. '>2 + >3' is '>=7'. */
  lemma PlusExample()
    ensures Plus(Count(2, false, true), Count(3, false, true)) == Count(7, true, false)
    ensures Plus(Count(0, true, false), Count(1, true, false)) == Count(1, true, false)
  {
  }
}
