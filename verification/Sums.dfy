/** Finite sums over maps, and the group-by law every aggregating query relies on. */
module Sums {

  ghost function Pick<K, V>(m: map<K, V>): (k: K)
    requires m != map[]
    ensures k in m
  {
    var k :| k in m;
    k
  }

  lemma RemoveShrinks<K, V>(m: map<K, V>, k: K)
    requires k in m
    ensures |m - {k}| == |m| - 1
  {
    assert (m - {k}).Keys == m.Keys - {k};
  }

  ghost function Sum<K>(m: map<K, int>): (total: int)
    decreases |m|
  {
    if m == map[] then 0 else
      var k := Pick(m);
      RemoveShrinks(m, k);
      m[k] + Sum(m - {k})
  }

  lemma {:induction false} SumRemove<K>(m: map<K, int>, k: K)
    requires k in m
    ensures Sum(m) == m[k] + Sum(m - {k})
    decreases |m|
  {
    var j := Pick(m);
    if j != k {
      RemoveShrinks(m, j);
      RemoveShrinks(m, k);
      SumRemove(m - {j}, k);
      SumRemove(m - {k}, j);
      assert m - {j} - {k} == m - {k} - {j};
    }
  }

  /** Writing one entry moves the sum by the change of that entry. */
  lemma SumUpdate<K>(m: map<K, int>, k: K, v: int)
    ensures Sum(m[k := v]) == Sum(m) - (if k in m then m[k] else 0) + v
  {
    SumRemove(m[k := v], k);
    assert m[k := v] - {k} == m - {k};
    if k in m {
      SumRemove(m, k);
    } else {
      assert m - {k} == m;
    }
  }

  lemma {:induction false} SumNonNegative<K>(m: map<K, int>)
    requires forall k :: k in m ==> 0 <= m[k]
    ensures 0 <= Sum(m)
    ensures forall k :: k in m ==> m[k] <= Sum(m)
    decreases |m|
  {
    forall k | k in m
      ensures 0 <= Sum(m) && m[k] <= Sum(m)
    {
      RemoveShrinks(m, k);
      SumNonNegative(m - {k});
      SumRemove(m, k);
    }
  }

  lemma {:induction false} SumOfZeros<K>(m: map<K, int>)
    requires forall k :: k in m ==> m[k] == 0
    ensures Sum(m) == 0
    decreases |m|
  {
    if m != map[] {
      var k :| k in m;
      RemoveShrinks(m, k);
      SumRemove(m, k);
      SumOfZeros(m - {k});
    }
  }

  /** A map in two parts sums to the sum of its parts. */
  lemma {:induction false} SumSplit<K>(part: map<K, int>, rest: map<K, int>)
    requires part.Keys !! rest.Keys
    ensures Sum(part + rest) == Sum(part) + Sum(rest)
    decreases |rest|
  {
    if rest == map[] {
      assert part + rest == part;
    } else {
      var k := Pick(rest);
      RemoveShrinks(rest, k);
      SumSplit(part, rest - {k});
      PartStep(part, rest, k);
    }
  }

  lemma PartStep<K>(part: map<K, int>, rest: map<K, int>, k: K)
    requires k in rest
    ensures Sum(part + rest) == rest[k] + Sum(part + (rest - {k})) || k in part
    ensures Sum(rest) == rest[k] + Sum(rest - {k})
  {
    SumRemove(part + rest, k);
    SumRemove(rest, k);
    if k !in part {
      assert part + rest - {k} == part + (rest - {k});
    }
  }

  // ---- GROUP BY ----

  function Members<K, V, G(==)>(m: map<K, V>, group: K -> G, g: G): map<K, V> {
    map k | k in m && group(k) == g :: m[k]
  }

  function GroupKeys<K, V, G>(m: map<K, V>, group: K -> G): set<G> {
    set k | k in m :: group(k)
  }

  /** SELECT group(k), SUM(m[k]) ... GROUP BY group(k). */
  ghost function GroupTotals<K, G>(m: map<K, int>, group: K -> G): map<G, int> {
    map g | g in GroupKeys(m, group) :: Sum(Members(m, group, g))
  }

  lemma MembersRemove<K, V, G>(m: map<K, V>, group: K -> G, k: K, h: G)
    requires k in m
    ensures h != group(k) ==> Members(m, group, h) == Members(m - {k}, group, h)
    ensures h == group(k) ==> Members(m, group, h) - {k} == Members(m - {k}, group, h)
  {
  }

  lemma GroupKeysRemove<K, V, G>(m: map<K, V>, group: K -> G, k: K)
    requires k in m
    ensures GroupKeys(m, group) == GroupKeys(m - {k}, group) + {group(k)}
  {
    forall h | h in GroupKeys(m, group) ensures h == group(k) || h in GroupKeys(m - {k}, group) {
      var j :| j in m && group(j) == h;
      assert j != k ==> j in m - {k};
    }
  }

  lemma NoMembers<K, V, G>(m: map<K, V>, group: K -> G, g: G)
    requires g !in GroupKeys(m, group)
    ensures Members(m, group, g) == map[]
  {
    forall j | j in m ensures group(j) != g { assert group(j) in GroupKeys(m, group); }
  }

  lemma GroupTotalsRemove<K, G>(m: map<K, int>, group: K -> G, k: K)
    requires k in m
    ensures var g, before := group(k), GroupTotals(m - {k}, group);
            GroupTotals(m, group) == before[g := m[k] + (if g in before then before[g] else 0)]
  {
    var g, rest := group(k), m - {k};
    GroupKeysRemove(m, group, k);
    MembersRemove(m, group, k, g);
    SumRemove(Members(m, group, g), k);
    if g !in GroupKeys(rest, group) {
      NoMembers(rest, group, g);
    }
    forall h | h in GroupKeys(m, group) && h != g ensures Members(m, group, h) == Members(rest, group, h) {
      MembersRemove(m, group, k, h);
    }
  }

  lemma GroupTotalsStep<K, G>(m: map<K, int>, group: K -> G, k: K)
    requires k in m
    ensures Sum(GroupTotals(m, group)) == Sum(GroupTotals(m - {k}, group)) + m[k]
  {
    var g, before := group(k), GroupTotals(m - {k}, group);
    GroupTotalsRemove(m, group, k);
    SumUpdate(before, g, m[k] + (if g in before then before[g] else 0));
  }

  /** However the rows are grouped, the group totals add up to the total of the rows. */
  lemma {:induction false} GroupTotalsSum<K, G>(m: map<K, int>, group: K -> G)
    ensures Sum(GroupTotals(m, group)) == Sum(m)
    decreases |m|
  {
    if m == map[] {
      assert GroupTotals(m, group) == map[];
    } else {
      var k := Pick(m);
      RemoveShrinks(m, k);
      GroupTotalsSum(m - {k}, group);
      GroupTotalsStep(m, group, k);
    }
  }

  // ---- sums of exact reals, for averages ----

  ghost function SumR<K>(m: map<K, real>): (total: real)
    decreases |m|
  {
    if m == map[] then 0.0 else
      var k := Pick(m);
      RemoveShrinks(m, k);
      m[k] + SumR(m - {k})
  }

  /** n copies of x, added up one at a time so that induction stays linear. */
  ghost function Copies(n: nat, x: real): real {
    if n == 0 then 0.0 else x + Copies(n - 1, x)
  }

  lemma {:induction false} CopiesIsProduct(n: nat, x: real)
    ensures Copies(n, x) == n as real * x
  {
    if n > 0 {
      CopiesIsProduct(n - 1, x);
      assert n as real * x == ((n - 1) as real + 1.0) * x == (n - 1) as real * x + x;
    }
  }

  lemma {:induction false} SumRAtMost<K>(m: map<K, real>, hi: real)
    requires forall k :: k in m ==> m[k] <= hi
    ensures SumR(m) <= Copies(|m|, hi)
    decreases |m|
  {
    if m != map[] {
      var k := Pick(m);
      RemoveShrinks(m, k);
      SumRAtMost(m - {k}, hi);
    }
  }

  lemma {:induction false} SumRAtLeast<K>(m: map<K, real>, lo: real)
    requires forall k :: k in m ==> lo <= m[k]
    ensures Copies(|m|, lo) <= SumR(m)
    decreases |m|
  {
    if m != map[] {
      var k := Pick(m);
      RemoveShrinks(m, k);
      SumRAtLeast(m - {k}, lo);
    }
  }

  /** SQL's AVG over a non-empty set of rows. */
  ghost function Mean<K>(m: map<K, real>): real
    requires m != map[]
  {
    SumR(m) / |m| as real
  }

  /** The mean of a non-empty set of values is at most any upper bound of them. */
  lemma MeanAtMost<K>(m: map<K, real>, hi: real)
    requires m != map[]
    requires forall k :: k in m ==> m[k] <= hi
    ensures Mean(m) <= hi
  {
    SumRAtMost(m, hi);
    CopiesIsProduct(|m|, hi);
    DivideAtMost(SumR(m), |m| as real, hi);
  }

  lemma MeanAtLeast<K>(m: map<K, real>, lo: real)
    requires m != map[]
    requires forall k :: k in m ==> lo <= m[k]
    ensures lo <= Mean(m)
  {
    SumRAtLeast(m, lo);
    CopiesIsProduct(|m|, lo);
    DivideAtLeast(SumR(m), |m| as real, lo);
  }

  lemma DivideAtMost(s: real, n: real, hi: real)
    requires n > 0.0 && s <= n * hi
    ensures s / n <= hi
  {
    var q := s / n;
    assert q * n == s;
    MultiplyMonotone(hi, q, n);
  }

  lemma DivideAtLeast(s: real, n: real, lo: real)
    requires n > 0.0 && n * lo <= s
    ensures lo <= s / n
  {
    var q := s / n;
    assert q * n == s;
    MultiplyMonotone(q, lo, n);
  }

  lemma MultiplyMonotone(x: real, y: real, n: real)
    requires n > 0.0 && x * n >= y * n
    ensures x >= y
  {
    assert (x - y) * n >= 0.0;
  }

  lemma {:induction false} SumRRemove<K>(m: map<K, real>, k: K)
    requires k in m
    ensures SumR(m) == m[k] + SumR(m - {k})
    decreases |m|
  {
    var j := Pick(m);
    if j != k {
      RemoveShrinks(m, j);
      RemoveShrinks(m, k);
      SumRRemove(m - {j}, k);
      SumRRemove(m - {k}, j);
      assert m - {j} - {k} == m - {k} - {j};
    }
  }

  lemma {:induction false} SumRMonotone<K>(a: map<K, real>, b: map<K, real>)
    requires a.Keys == b.Keys && forall k :: k in a ==> a[k] <= b[k]
    ensures SumR(a) <= SumR(b)
    decreases |a|
  {
    if a != map[] {
      var k :| k in a;
      RemoveShrinks(a, k);
      SumRRemove(a, k);
      SumRRemove(b, k);
      SumRMonotone(a - {k}, b - {k});
    } else {
      assert b == map[];
    }
  }

  lemma {:induction false} SumMonotone<K>(a: map<K, int>, b: map<K, int>)
    requires a.Keys == b.Keys && forall k :: k in a ==> a[k] <= b[k]
    ensures Sum(a) <= Sum(b)
    decreases |a|
  {
    if a != map[] {
      var k :| k in a;
      RemoveShrinks(a, k);
      SumRemove(a, k);
      SumRemove(b, k);
      SumMonotone(a - {k}, b - {k});
    } else {
      assert b == map[];
    }
  }

  /** SQL's MAX and MIN over a non-empty set of rows. */
  ghost function Max<K>(m: map<K, real>): real
    requires m != map[]
    decreases |m|
  {
    var k := Pick(m);
    RemoveShrinks(m, k);
    var rest := m - {k};
    if rest == map[] || m[k] >= Max(rest) then m[k] else Max(rest)
  }

  ghost function Min<K>(m: map<K, real>): real
    requires m != map[]
  {
    -Max(map k | k in m :: -m[k])
  }

  lemma {:induction false} MaxIsGreatest<K>(m: map<K, real>)
    requires m != map[]
    ensures exists k :: k in m && m[k] == Max(m)
    ensures forall k :: k in m ==> m[k] <= Max(m)
    decreases |m|
  {
    var k := Pick(m);
    RemoveShrinks(m, k);
    var rest := m - {k};
    if rest != map[] {
      MaxIsGreatest(rest);
      var j :| j in rest && rest[j] == Max(rest);
      assert j in m && m[j] == rest[j];
      forall i | i in m ensures m[i] <= Max(m) {
        assert i != k ==> i in rest;
      }
    } else {
      forall i | i in m ensures i == k {
        assert i != k ==> i in rest;
      }
    }
  }

  lemma MinIsLeast<K>(m: map<K, real>)
    requires m != map[]
    ensures exists k :: k in m && m[k] == Min(m)
    ensures forall k :: k in m ==> Min(m) <= m[k]
  {
    var negated := map k | k in m :: -m[k];
    assert negated.Keys == m.Keys;
    MaxIsGreatest(negated);
    var k :| k in negated && negated[k] == Max(negated);
    assert m[k] == Min(m);
    forall j | j in m ensures Min(m) <= m[j] {
      assert negated[j] <= Max(negated);
    }
  }
}
