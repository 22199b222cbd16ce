/** Sums over the threads of a map. */
module Sums {
  import opened Threads

  ghost function Sum<A>(m: map<Tid, A>, cost: A -> nat): nat {
    if m == map[] then 0
    else
      var t :| t in m;
      cost(m[t]) + Sum(m - {t}, cost)
  }

  /** Any thread's part can be taken out first. */
  lemma {:induction false} SumOut<A>(m: map<Tid, A>, cost: A -> nat, t: Tid)
    requires t in m
    ensures Sum(m, cost) == cost(m[t]) + Sum(m - {t}, cost)
    decreases |m|
  {
    var u :| u in m && Sum(m, cost) == cost(m[u]) + Sum(m - {u}, cost);
    if u != t {
      SumOut(m - {u}, cost, t);
      SumOut(m - {t}, cost, u);
      assert m - {u} - {t} == m - {t} - {u};
    }
  }

  lemma {:induction false} SumMove<A>(m: map<Tid, A>, cost: A -> nat, t: Tid, a: A)
    ensures Sum(m[t := a], cost) == Sum(m, cost) + cost(a) - if t in m then cost(m[t]) else 0
  {
    SumOut(m[t := a], cost, t);
    assert m[t := a] - {t} == m - {t};
    if t in m {
      SumOut(m, cost, t);
    } else {
      assert m - {t} == m;
    }
  }

  lemma {:induction false} SumZero<A>(m: map<Tid, A>, cost: A -> nat)
    requires forall t | t in m :: cost(m[t]) == 0
    ensures Sum(m, cost) == 0
    decreases |m|
  {
    if m == map[] {
    } else {
      var t :| t in m;
      SumOut(m, cost, t);
      SumZero(m - {t}, cost);
    }
  }
}
