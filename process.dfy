/**
 * The bookkeeping of the batch driver (`process.py`): splitting the
 * MaybeCounter results into two plain columns, reading the gold standard's
 * yes/no answers, recording false positives and negatives minus the known
 * gold-standard errors, and tallying the values of every result column.
 */
module Process {
  import opened Wrappers
  import opened Text
  import opened MaybeCounters

  /** A value of a result or truth dictionary: a MaybeCounter, a number, a string or None. */
  datatype Value = Counter(c: Count) | Num(n: int) | Str(s: string) | Nothing

  // ---------------------------------------------------------------- split_maybe_counters

  function GeKey(k: string): string { k + "__ge" }
  function NumKey(k: string): string { k + "__num" }

  /** The `__ge` column: 1 for a "greater than" or "at least" counter, else 0. */
  function GeFlag(c: Count): int { if c.greaterThan then 1 else if c.atLeast then 1 else 0 }

  /** The `__num` column: the count, one less for a "greater than" counter. */
  function NumPart(c: Count): int { if c.greaterThan then c.count - 1 else c.count }

  /** The labels of a dictionary's items (in insertion order) are distinct. */
  predicate DistinctKeys(items: seq<(string, Value)>)
  {
    forall i, j :: 0 <= i < j < |items| ==> items[i].0 != items[j].0
  }

  /** The columns the items make, the later items writing over the earlier ones. */
  function Split(items: seq<(string, Value)>): map<string, int>
  {
    if items == [] then map[]
    else
      var front := Split(items[..|items| - 1]);
      var (k, v) := items[|items| - 1];
      if v.Counter? then front[GeKey(k) := GeFlag(v.c)][NumKey(k) := NumPart(v.c)] else front
  }

  /** The number of items holding a MaybeCounter. */
  function Counters(items: seq<(string, Value)>): nat
  {
    if items == [] then 0 else Counters(items[..|items| - 1]) + (if items[|items| - 1].1.Counter? then 1 else 0)
  }

  /** Distinct labels give distinct columns, and no `__ge` column is a `__num` column. */
  lemma ColumnsDistinct(k1: string, k2: string)
    ensures GeKey(k1) == GeKey(k2) ==> k1 == k2
    ensures NumKey(k1) == NumKey(k2) ==> k1 == k2
    ensures GeKey(k1) != NumKey(k2)
  {
    if GeKey(k1) == GeKey(k2) {
      assert k1 == GeKey(k1)[..|k1|];
      assert k2 == GeKey(k2)[..|k2|];
    }
    if NumKey(k1) == NumKey(k2) {
      assert k1 == NumKey(k1)[..|k1|];
      assert k2 == NumKey(k2)[..|k2|];
    }
    if |GeKey(k1)| == |NumKey(k2)| {
      assert GeKey(k1)[|GeKey(k1)| - 1] == 'e';
      assert NumKey(k2)[|NumKey(k2)| - 1] == 'm';
    }
  }

  /** A column made by one of the items: `k__ge` or `k__num` for a MaybeCounter under k. */
  predicate MadeBy(items: seq<(string, Value)>, key: string)
  {
    exists i :: 0 <= i < |items| && items[i].1.Counter? && (key == GeKey(items[i].0) || key == NumKey(items[i].0))
  }

  /** Every MaybeCounter gets its two columns, with its flag and its number. */
  lemma {:induction false} SplitValues(items: seq<(string, Value)>)
    requires DistinctKeys(items)
    ensures forall i :: 0 <= i < |items| && items[i].1.Counter? ==>
      && GeKey(items[i].0) in Split(items) && Split(items)[GeKey(items[i].0)] == GeFlag(items[i].1.c)
      && NumKey(items[i].0) in Split(items) && Split(items)[NumKey(items[i].0)] == NumPart(items[i].1.c)
  {
    if items != [] {
      var front := items[..|items| - 1];
      var k := items[|items| - 1].0;
      SplitValues(front);
      forall i | 0 <= i < |front| && front[i].1.Counter?
        ensures GeKey(front[i].0) != GeKey(k) && GeKey(front[i].0) != NumKey(k)
        ensures NumKey(front[i].0) != GeKey(k) && NumKey(front[i].0) != NumKey(k)
      {
        assert front[i] == items[i];
        ColumnsDistinct(front[i].0, k);
        ColumnsDistinct(k, front[i].0);
      }
      assert forall i :: 0 <= i < |front| ==> front[i] == items[i];
      ColumnsDistinct(k, k);
    }
  }

  /** No other columns are made. */
  lemma {:induction false} SplitOnly(items: seq<(string, Value)>)
    ensures forall key :: key in Split(items) ==> MadeBy(items, key)
  {
    if items != [] {
      var front := items[..|items| - 1];
      SplitOnly(front);
      forall key | key in Split(items)
        ensures MadeBy(items, key)
      {
        if key in Split(front) {
          var i :| 0 <= i < |front| && front[i].1.Counter? && (key == GeKey(front[i].0) || key == NumKey(front[i].0));
          assert items[i] == front[i];
        } else {
          assert items[|items| - 1].1.Counter?;
        }
      }
    }
  }

  /** Exactly two columns per MaybeCounter. */
  lemma {:induction false} SplitSize(items: seq<(string, Value)>)
    requires DistinctKeys(items)
    ensures |Split(items)| == 2 * Counters(items)
  {
    if items != [] {
      var front := items[..|items| - 1];
      var k := items[|items| - 1].0;
      SplitSize(front);
      SplitOnly(front);
      var m := Split(front);
      forall key | key in m
        ensures key != GeKey(k) && key != NumKey(k)
      {
        var i :| 0 <= i < |front| && front[i].1.Counter? && (key == GeKey(front[i].0) || key == NumKey(front[i].0));
        assert front[i] == items[i];
        ColumnsDistinct(front[i].0, k);
        ColumnsDistinct(k, front[i].0);
      }
      ColumnsDistinct(k, k);
    }
  }

  /**
   * `split_maybe_counters(data)` over the dictionary's items in insertion
   * order: two columns for every MaybeCounter value, `k__ge` and `k__num`,
   * and none for the other values.
   */
  method SplitMaybeCounters(items: seq<(string, Value)>) returns (res: map<string, int>)
    ensures res == Split(items)
  {
    res := map[];
    var i := 0;
    while i < |items|
      invariant i <= |items|
      invariant res == Split(items[..i])
    {
      assert items[..i + 1][..i] == items[..i];
      var (k, v) := items[i];
      if v.Counter? {
        res := res[GeKey(k) := GeFlag(v.c)];
        res := res[NumKey(k) := NumPart(v.c)];
      }
      i := i + 1;
    }
    assert items[..i] == items;
  }

  // ---------------------------------------------------------------- clean_truth

  /**
   * `clean_truth(x)`: a string whose first character is y or Y reads 1, one
   * whose first character is n or N reads 0, other values stay as they are;
   * the empty string fails on its first character.
   */
  function CleanTruth(x: Value): (r: Result<Value>)
    ensures r.Err? <==> x == Str("")
    ensures x.Str? && x.s != "" && x.s[0] in {'y', 'Y'} ==> r == Ok(Num(1))
    ensures x.Str? && x.s != "" && x.s[0] in {'n', 'N'} ==> r == Ok(Num(0))
    ensures !x.Str? ==> r == Ok(x)
    ensures x.Str? && x.s != "" && x.s[0] !in {'y', 'Y', 'n', 'N'} ==> r == Ok(x)
  {
    match x
    case Str(s) =>
      if s == "" then Err(IndexError)
      else if LowerChar(s[0]) == 'y' then Ok(Num(1))
      else if LowerChar(s[0]) == 'n' then Ok(Num(0))
      else Ok(x)
    case _ => Ok(x)
  }

  /** A cleaned answer is clean: cleaning twice changes nothing. */
  lemma CleanTruthIdempotent(x: Value)
    requires CleanTruth(x).Ok?
    ensures CleanTruth(CleanTruth(x).value) == CleanTruth(x)
  {
  }

  // ---------------------------------------------------------------- add_identifier

  /**
   * The gold standard's known errors: label to 'fp'/'fn' to identifiers.
   * None stands for `errors=None`.
   */
  type Errors = Option<map<string, map<string, seq<string>>>>

  /** The identifier is a known error of the gold standard for the label and kind. */
  predicate Excluded(identifier: string, name: string, errors: Errors, value: string)
  {
    && errors.Some?
    && name in errors.value
    && Lower(value) in errors.value[name]
    && identifier in errors.value[name][Lower(value)]
  }

  /** No listed identifier is a known error for its label. */
  predicate NoneExcluded(lists: map<string, seq<string>>, errors: Errors, value: string)
  {
    forall name, i :: name in lists && 0 <= i < |lists[name]| ==> !Excluded(lists[name][i], name, errors, value)
  }

  /** The list of a label in a `defaultdict(list)`. */
  function Listed(lists: map<string, seq<string>>, name: string): seq<string>
  {
    if name in lists then lists[name] else []
  }

  /** The `fps` / `fns` dictionaries: label to the identifiers scored false. */
  class Identifiers {
    var lists: map<string, seq<string>>

    constructor ()
      ensures lists == map[]
    {
      lists := map[];
    }

    /**
     * `add_identifier(identifier, d, label, errors, value)`: 0 and nothing
     * recorded for a known error (a missing label or kind, or no errors at
     * all, is no error); otherwise the identifier is appended to the
     * label's list and the result is 1.
     */
    method AddIdentifier(identifier: string, name: string, errors: Errors, value: string) returns (r: int)
      modifies this
      ensures Excluded(identifier, name, errors, value) ==> r == 0 && lists == old(lists)
      ensures !Excluded(identifier, name, errors, value) ==>
        r == 1 && lists == old(lists)[name := Listed(old(lists), name) + [identifier]]
      ensures old(NoneExcluded(lists, errors, value)) ==> NoneExcluded(lists, errors, value)
    {
      if errors.Some? && name in errors.value {
        var kinds := errors.value[name];
        var kind := Lower(value);
        if kind in kinds && identifier in kinds[kind] {
          return 0;
        }
      }
      lists := lists[name := Listed(lists, name) + [identifier]];
      return 1;
    }
  }

  // ---------------------------------------------------------------- DataCounter.update

  /** One value of a result column: a scalar, counted once, or a list, counted per element. */
  datatype Entry = One(v: Value) | Many(vs: seq<Value>)

  /** The argument of `update`: a result dictionary's items, a label with a value, or anything else. */
  datatype Other = Record(items: seq<(string, Entry)>) | Label(name: string, val: Value) | Ignored

  /** The values an entry counts. */
  function Counted(e: Entry): multiset<Value>
  {
    match e
    case One(v) => multiset{v}
    case Many(vs) => multiset(vs)
  }

  /** The counter of a label in a `defaultdict(Counter)`. */
  function CounterOf(data: map<string, multiset<Value>>, k: string): multiset<Value>
  {
    if k in data then data[k] else multiset{}
  }

  /** Counting one item: its values are added to its label's counter. */
  function Step(t: map<string, multiset<Value>>, item: (string, Entry)): map<string, multiset<Value>>
  {
    t[item.0 := CounterOf(t, item.0) + Counted(item.1)]
  }

  /** The tallies after counting the items one after the other. */
  function Tallied(data: map<string, multiset<Value>>, items: seq<(string, Entry)>): map<string, multiset<Value>>
  {
    if items == [] then data
    else Step(Tallied(data, items[..|items| - 1]), items[|items| - 1])
  }

  /** Everything the items count under label k. */
  function Extra(items: seq<(string, Entry)>, k: string): multiset<Value>
  {
    if items == [] then multiset{}
    else Extra(items[..|items| - 1], k) + (if items[|items| - 1].0 == k then Counted(items[|items| - 1].1) else multiset{})
  }

  /** The labels of the items. */
  function Labels(items: seq<(string, Entry)>): set<string>
  {
    set i | 0 <= i < |items| :: items[i].0
  }

  /** After counting, each label's counter holds what it held plus everything counted under it. */
  lemma {:induction false} TalliedAt(data: map<string, multiset<Value>>, items: seq<(string, Entry)>, k: string)
    ensures CounterOf(Tallied(data, items), k) == CounterOf(data, k) + Extra(items, k)
  {
    if items != [] {
      TalliedAt(data, items[..|items| - 1], k);
    }
  }

  /** Counting creates a counter for every label it sees (as `defaultdict` does) and no other. */
  lemma {:induction false} TalliedKeys(data: map<string, multiset<Value>>, items: seq<(string, Entry)>)
    ensures Tallied(data, items).Keys == data.Keys + Labels(items)
  {
    if items != [] {
      var front := items[..|items| - 1];
      TalliedKeys(data, front);
      assert Labels(items) == Labels(front) + {items[|items| - 1].0} by {
        assert forall i :: 0 <= i < |front| ==> front[i] == items[i];
      }
    }
  }

  /** Two tallies with the same labels and the same counters are the same. */
  lemma SameTallies(m1: map<string, multiset<Value>>, m2: map<string, multiset<Value>>)
    requires m1.Keys == m2.Keys
    requires forall k :: CounterOf(m1, k) == CounterOf(m2, k)
    ensures m1 == m2
  {
    forall k | k in m1
      ensures m1[k] == m2[k]
    {
      assert CounterOf(m1, k) == CounterOf(m2, k);
    }
  }

  /** One label's counter does not depend on the order in which two reports are counted. */
  lemma CounterCommutes(data: map<string, multiset<Value>>, a: seq<(string, Entry)>, b: seq<(string, Entry)>, k: string)
    ensures CounterOf(Tallied(Tallied(data, a), b), k) == CounterOf(Tallied(Tallied(data, b), a), k)
  {
    TalliedAt(Tallied(data, a), b, k);
    TalliedAt(data, a, k);
    TalliedAt(Tallied(data, b), a, k);
    TalliedAt(data, b, k);
  }

  /** The tallies do not depend on the order in which two reports are counted. */
  lemma TalliedCommutes(data: map<string, multiset<Value>>, a: seq<(string, Entry)>, b: seq<(string, Entry)>)
    ensures Tallied(Tallied(data, a), b) == Tallied(Tallied(data, b), a)
  {
    var ab := Tallied(Tallied(data, a), b);
    var ba := Tallied(Tallied(data, b), a);
    TalliedKeys(data, a);
    TalliedKeys(data, b);
    TalliedKeys(Tallied(data, a), b);
    TalliedKeys(Tallied(data, b), a);
    assert ab.Keys == ba.Keys;
    forall k
      ensures CounterOf(ab, k) == CounterOf(ba, k)
    {
      CounterCommutes(data, a, b, k);
    }
    SameTallies(ab, ba);
  }

  /** The summary counts of all results, column by column (`DataCounter`). */
  class DataCounter {
    var data: map<string, multiset<Value>>

    /** `DataCounter()`: an empty `defaultdict(Counter)`. */
    constructor ()
      ensures data == map[]
    {
      data := map[];
    }

    /**
     * `update(other, val)`: a dictionary's entries are counted under their
     * labels in order, a label with a value counts that value once, and
     * anything else changes nothing.
     */
    method Update(other: Other)
      modifies this
      ensures other.Record? ==> data == Tallied(old(data), other.items)
      ensures other.Label? ==> data == old(data)[other.name := CounterOf(old(data), other.name) + multiset{other.val}]
      ensures other.Ignored? ==> data == old(data)
    {
      if other.Record? {
        var d := CountAll(data, other.items);
        data := d;
      } else if other.Label? {
        data := data[other.name := CounterOf(data, other.name) + multiset{other.val}];
      }
    }
  }

  /** The loop of `update` over a dictionary's items, on the counters it starts from. */
  method CountAll(data: map<string, multiset<Value>>, items: seq<(string, Entry)>) returns (d: map<string, multiset<Value>>)
    ensures d == Tallied(data, items)
  {
    d := data;
    var i := 0;
    while i < |items|
      invariant i <= |items|
      invariant d == Tallied(data, items[..i])
    {
      assert items[..i + 1][..i] == items[..i];
      d := Step(d, items[i]);
      i := i + 1;
    }
    assert items[..i] == items;
  }
}
