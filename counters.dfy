/**
 * The two `collections.Counter` objects of the script, seen as maps:
 * `c[k] += d` reads a missing key as zero, and the session report sums
 * the values. `Total` and `Tally` are those sums; the lemmas say how an
 * increment moves them.
 */
module Counters {

  /** `c[k] += d` on a Counter of seconds. */
  function AddTo<K>(m: map<K, real>, k: K, d: real): map<K, real>
  {
    m[k := (if k in m then m[k] else 0.0) + d]
  }

  /** `c[k] += 1` on a Counter of frames. */
  function Bump<K>(m: map<K, nat>, k: K): map<K, nat>
  {
    m[k := (if k in m then m[k] else 0) + 1]
  }

  /** Sum of all the seconds in a Counter. */
  ghost function Total<K>(m: map<K, real>): real
    decreases |m|
  {
    if m == map[] then 0.0
    else
      var k :| k in m;
      m[k] + Total(m - {k})
  }

  /** Sum of all the frame counts in a Counter. */
  ghost function Tally<K>(m: map<K, nat>): int
    decreases |m|
  {
    if m == map[] then 0
    else
      var k :| k in m;
      m[k] + Tally(m - {k})
  }

  /** The sum does not depend on which key is taken out first. */
  lemma {:induction false} TotalRemove<K>(m: map<K, real>, k: K)
    requires k in m
    ensures Total(m) == m[k] + Total(m - {k})
    decreases |m|
  {
    var j :| j in m && Total(m) == m[j] + Total(m - {j});
    if j != k {
      TotalRemove(m - {j}, k);
      TotalRemove(m - {k}, j);
      assert m - {j} - {k} == m - {k} - {j};
    }
  }

  lemma {:induction false} TallyRemove<K>(m: map<K, nat>, k: K)
    requires k in m
    ensures Tally(m) == m[k] + Tally(m - {k})
    decreases |m|
  {
    var j :| j in m && Tally(m) == m[j] + Tally(m - {j});
    if j != k {
      TallyRemove(m - {j}, k);
      TallyRemove(m - {k}, j);
      assert m - {j} - {k} == m - {k} - {j};
    }
  }

  /** `c[k] += d` adds exactly `d` to the Counter's total, touches no other key and lowers nothing when `d` is not negative. */
  lemma TotalAddTo<K>(m: map<K, real>, k: K, d: real)
    ensures Total(AddTo(m, k, d)) == Total(m) + d
    ensures AddTo(m, k, d).Keys == m.Keys + {k}
    ensures forall j :: j in m && j != k ==> AddTo(m, k, d)[j] == m[j]
    ensures d >= 0.0 ==> forall j :: j in m ==> AddTo(m, k, d)[j] >= m[j]
  {
    var r := AddTo(m, k, d);
    TotalRemove(r, k);
    assert r - {k} == m - {k};
    if k in m {
      TotalRemove(m, k);
    } else {
      assert m - {k} == m;
    }
  }

  /** `c[k] += 1` adds exactly one frame to the Counter's total and touches no other key. */
  lemma TallyBump<K>(m: map<K, nat>, k: K)
    ensures Tally(Bump(m, k)) == Tally(m) + 1
    ensures Bump(m, k).Keys == m.Keys + {k}
    ensures Bump(m, k)[k] == (if k in m then m[k] else 0) + 1
    ensures forall j :: j in m && j != k ==> Bump(m, k)[j] == m[j]
  {
    var r := Bump(m, k);
    TallyRemove(r, k);
    assert r - {k} == m - {k};
    if k in m {
      TallyRemove(m, k);
    } else {
      assert m - {k} == m;
    }
  }
}
