// Finite distributions kept as maps from outcome to mass.
module Masses {

  function Weighed<K>(m: map<K, real>, k: K, payoff: K -> real): real
    requires k in m
  {
    m[k] * payoff(k)
  }

  // The total of a payoff over a distribution, each outcome weighted by its mass.
  ghost function Total<K(!new)>(m: map<K, real>, payoff: K -> real): real
    decreases |m.Keys|
  {
    if m == map[] then 0.0
    else
      var k :| k in m;
      assert (m - {k}).Keys == m.Keys - {k};
      Weighed(m, k, payoff) + Total(m - {k}, payoff)
  }

  // `m[k] += w`, where an absent key starts at zero.
  function Add<K>(m: map<K, real>, k: K, w: real): map<K, real> {
    m[k := (if k in m then m[k] else 0.0) + w]
  }

  ghost predicate NonNegative<K(!new)>(m: map<K, real>) {
    forall k :: k in m ==> m[k] >= 0.0
  }

  lemma {:induction false} TotalRemove<K(!new)>(m: map<K, real>, k: K, payoff: K -> real)
    requires k in m
    ensures Total(m, payoff) == Weighed(m, k, payoff) + Total(m - {k}, payoff)
    decreases |m.Keys|
  {
    hide Weighed;
    var j :| j in m && Total(m, payoff) == Weighed(m, j, payoff) + Total(m - {j}, payoff);
    if j != k {
      assert (m - {j}).Keys == m.Keys - {j};
      TotalRemove(m - {j}, k, payoff);
      assert (m - {k}).Keys == m.Keys - {k};
      TotalRemove(m - {k}, j, payoff);
      assert m - {j} - {k} == m - {k} - {j};
      WeighedElsewhere(m, j, k, payoff);
      WeighedElsewhere(m, k, j, payoff);
    }
  }

  lemma WeighedElsewhere<K(!new)>(m: map<K, real>, j: K, k: K, payoff: K -> real)
    requires j in m && k in m && j != k
    ensures Weighed(m - {j}, k, payoff) == Weighed(m, k, payoff)
  {
  }

  lemma TotalAdd<K(!new)>(m: map<K, real>, k: K, w: real, payoff: K -> real)
    ensures Total(Add(m, k, w), payoff) == Total(m, payoff) + w * payoff(k)
  {
    hide Total;
    var m' := Add(m, k, w);
    TotalRemove(m', k, payoff);
    if k in m {
      TotalRemove(m, k, payoff);
      assert m' - {k} == m - {k};
      assert (m[k] + w) * payoff(k) == m[k] * payoff(k) + w * payoff(k);
    } else {
      assert m' - {k} == m;
    }
  }

  lemma {:induction false} TotalSum<K(!new)>(m: map<K, real>, f: K -> real, g: K -> real, h: K -> real)
    requires forall k :: k in m ==> h(k) == f(k) + g(k)
    ensures Total(m, h) == Total(m, f) + Total(m, g)
    decreases |m.Keys|
  {
    if m != map[] {
      hide Weighed;
      var k :| k in m;
      assert (m - {k}).Keys == m.Keys - {k};
      TotalRemove(m, k, f);
      TotalRemove(m, k, g);
      TotalRemove(m, k, h);
      TotalSum(m - {k}, f, g, h);
      WeighedSum(m, k, f, g, h);
    }
  }

  lemma WeighedSum<K(!new)>(m: map<K, real>, k: K, f: K -> real, g: K -> real, h: K -> real)
    requires k in m && h(k) == f(k) + g(k)
    ensures Weighed(m, k, h) == Weighed(m, k, f) + Weighed(m, k, g)
  {
    assert m[k] * (f(k) + g(k)) == m[k] * f(k) + m[k] * g(k);
  }

  lemma {:induction false} TotalMonotone<K(!new)>(m: map<K, real>, f: K -> real, g: K -> real)
    requires NonNegative(m)
    requires forall k :: k in m ==> f(k) <= g(k)
    ensures Total(m, f) <= Total(m, g)
    decreases |m.Keys|
  {
    if m != map[] {
      hide Weighed;
      var k :| k in m;
      assert (m - {k}).Keys == m.Keys - {k};
      TotalRemove(m, k, f);
      TotalRemove(m, k, g);
      TotalMonotone(m - {k}, f, g);
      WeighedMonotone(m, k, f, g);
    }
  }

  lemma WeighedMonotone<K(!new)>(m: map<K, real>, k: K, f: K -> real, g: K -> real)
    requires k in m && m[k] >= 0.0 && f(k) <= g(k)
    ensures Weighed(m, k, f) <= Weighed(m, k, g)
  {
    assert m[k] * (g(k) - f(k)) >= 0.0;
  }
}
