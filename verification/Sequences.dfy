/** A fact about sequences that first-in-first-out queues come down to. */
module Sequences {
  /** What was in the queue and what has come in, twice over, is what has gone out and what is left. */
  lemma {:induction false} Regroup<T>(q: seq<T>, p: seq<T>, d: seq<T>, a: seq<T>, ps: seq<T>, ds: seq<T>, r: seq<T>)
    requires q + p == d + a && a + ps == ds + r
    ensures q + (p + ps) == (d + ds) + r
  {
    assert q + (p + ps) == q + p + ps == d + (a + ps);
    assert d + (ds + r) == (d + ds) + r;
  }
}
