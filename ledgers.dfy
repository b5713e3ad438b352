/** Building blocks shared by the three NEAR contracts (auction, token, vote):
    call outcomes, the `get(..).unwrap_or(0)` read of a persistent map, and the
    sum of all values of a map, which states the conservation laws. */
module Ledgers {

  /** An account name as the NEAR runtime supplies it (the predecessor account). */
  type AccountId = string

  /** What a contract call amounts to. Every guard of the three contracts is an
      `assert!` placed before the first write, and a failed `assert!` panics and
      reverts the call, so a rejected call is one that changed nothing. */
  datatype Outcome<+E> = Accepted | Rejected(reason: E)

  /** One call: its outcome and the contract state it leaves behind. */
  datatype Transition<+S, +E> = Transition(outcome: Outcome<E>, next: S)

  /** `m.get(&k).unwrap_or(0)`: a missing key reads as 0. */
  function Get<K>(m: map<K, nat>, k: K): nat
  {
    if k in m then m[k] else 0
  }

  /** The sum of all values stored in `m`. */
  ghost function Total<K>(m: map<K, nat>): nat
    decreases |m|
  {
    if m == map[] then 0
    else
      var k :| k in m;
      assert |(m - {k}).Keys| < |m.Keys| by {
        assert m.Keys == (m - {k}).Keys + {k};
      }
      m[k] + Total(m - {k})
  }

  /** Any key, not only the one `Total` happens to pick, can be split off. */
  lemma {:induction false} TotalRemove<K>(m: map<K, nat>, k: K)
    requires k in m
    ensures Total(m) == m[k] + Total(m - {k})
    decreases |m|
  {
    var j :| j in m && Total(m) == m[j] + Total(m - {j});
    if j != k {
      assert |(m - {j}).Keys| < |m.Keys| by {
        assert m.Keys == (m - {j}).Keys + {j};
      }
      assert |(m - {k}).Keys| < |m.Keys| by {
        assert m.Keys == (m - {k}).Keys + {k};
      }
      TotalRemove(m - {j}, k);
      TotalRemove(m - {k}, j);
      assert m - {j} - {k} == m - {k} - {j};
    }
  }

  /** Overwriting the entry of `k` with `v` changes the total by `v - Get(m, k)`. */
  lemma TotalUpdate<K>(m: map<K, nat>, k: K, v: nat)
    ensures Total(m[k := v]) + Get(m, k) == Total(m) + v
  {
    TotalRemove(m[k := v], k);
    assert m[k := v] - {k} == m - {k};
    if k in m {
      TotalRemove(m, k);
    } else {
      assert m - {k} == m;
    }
  }

  /** No single entry exceeds the total. */
  lemma EntryAtMostTotal<K>(m: map<K, nat>, k: K)
    ensures Get(m, k) <= Total(m)
  {
    if k in m {
      TotalRemove(m, k);
    }
  }
}
