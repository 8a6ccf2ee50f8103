/** The sum of the values of a map of counters. */
module MapSum {

  ghost function Sum(m: map<string, nat>): nat
    decreases |m|
  {
    if m == map[] then 0
    else
      var k :| k in m;
      m[k] + Sum(m - {k})
  }

  /** Any key can be taken out of the sum first. */
  lemma {:induction false} SumPick(m: map<string, nat>, key: string)
    requires key in m
    ensures Sum(m) == m[key] + Sum(m - {key})
    decreases |m|
  {
    var k :| k in m && Sum(m) == m[k] + Sum(m - {k});
    if k != key {
      SumPick(m - {k}, key);
      SumPick(m - {key}, k);
      assert m - {k} - {key} == m - {key} - {k};
    }
  }

  lemma SumSet(m: map<string, nat>, key: string, value: nat)
    ensures Sum(m[key := value]) == Sum(m) - (if key in m then m[key] else 0) + value
  {
    var after := m[key := value];
    SumPick(after, key);
    assert after - {key} == m - {key};
    if key in m {
      SumPick(m, key);
    } else {
      assert m - {key} == m;
    }
  }

  lemma {:induction false} SumZeros(m: map<string, nat>)
    requires forall k :: k in m ==> m[k] == 0
    ensures Sum(m) == 0
    decreases |m|
  {
    if m != map[] {
      var k :| k in m;
      SumPick(m, k);
      SumZeros(m - {k});
    }
  }
}
