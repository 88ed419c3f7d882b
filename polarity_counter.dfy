/** PolarityCounter: how many positive and how many negative mentions were seen. */
module PolarityCounters {
  datatype Polarity = Polarity(positive: int, negative: int)

  const Zero := Polarity(0, 0)

  /** `unknown`: nothing was counted (for non-negative counts: both are zero). */
  predicate Unknown(p: Polarity) { p.positive + p.negative == 0 }

  /** The value after `add(positive=., negative=.)`. */
  function Added(p: Polarity, positive: int, negative: int): (r: Polarity)
    ensures r.positive - p.positive == positive && r.negative - p.negative == negative
  {
    Polarity(p.positive + positive, p.negative + negative)
  }

  /** `a + b`. */
  function Plus(a: Polarity, b: Polarity): (r: Polarity)
    ensures r.positive == a.positive + b.positive && r.negative == a.negative + b.negative
  {
    Polarity(a.positive + b.positive, a.negative + b.negative)
  }

  /** `a == b` compares both components and nothing else. */
  predicate Equal(a: Polarity, b: Polarity) { a.positive == b.positive && a.negative == b.negative }

  lemma EqualIsIdentity(a: Polarity, b: Polarity)
    ensures Equal(a, b) <==> a == b
  {
  }

  lemma PlusCommutes(a: Polarity, b: Polarity)
    ensures Plus(a, b) == Plus(b, a)
  {
  }

  lemma PlusAssociates(a: Polarity, b: Polarity, c: Polarity)
    ensures Plus(Plus(a, b), c) == Plus(a, Plus(b, c))
  {
  }

  /** Adding in place is adding the counter the arguments describe. */
  lemma AddedIsPlus(p: Polarity, positive: int, negative: int)
    ensures Added(p, positive, negative) == Plus(p, Polarity(positive, negative))
  {
  }

  /** Counts never go negative in use; then unknown means both are zero. */
  lemma UnknownIffZero(p: Polarity)
    requires p.positive >= 0 && p.negative >= 0
    ensures Unknown(p) <==> p == Zero
  {
  }
}
