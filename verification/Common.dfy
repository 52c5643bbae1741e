/** What every contract sees of its host: addresses, digests, the call environment, sums over maps. */
module Common {

  datatype Option<+T> = None | Some(value: T)

  type Address = nat

  /** A 32-byte value; `WellFormed` is what its fixed-size type guarantees. */
  datatype Digest = Digest(bytes: seq<int>)

  predicate WellFormed(d: Digest) { |d.bytes| == 32 && forall i :: 0 <= i < 32 ==> 0 <= d.bytes[i] < 256 }

  const U32_MAX: nat := 0xFFFF_FFFF
  const U64_MAX: nat := 0xFFFF_FFFF_FFFF_FFFF
  const I128_MAX: int := 0x7FFF_FFFF_FFFF_FFFF_FFFF_FFFF_FFFF_FFFF

  predicate InI128(x: int) { -I128_MAX - 1 <= x <= I128_MAX }

  /**
   One invocation's environment: who has authorised it, whether a configured pause manager
   reports the system paused, and the ledger clock.
   */
  datatype Env = Env(auth: set<Address>, paused: bool, now: nat, ledger: nat)

  function ZeroDigest(): Digest { Digest(seq(32, _ => 0)) }

  /** The sum of a finite map's values. */
  ghost function Sum<K>(m: map<K, int>): int
    decreases |m|
  {
    if m == map[] then 0 else var k :| k in m; m[k] + Sum(m - {k})
  }

  lemma {:induction false} SumRemove<K>(m: map<K, int>, k: K)
    requires k in m
    ensures Sum(m) == m[k] + Sum(m - {k})
    decreases |m|
  {
    var j :| j in m && Sum(m) == m[j] + Sum(m - {j});
    if j != k {
      SumRemove(m - {j}, k);
      SumRemove(m - {k}, j);
      assert m - {j} - {k} == m - {k} - {j};
    }
  }

  lemma SumUpdate<K>(m: map<K, int>, k: K, v: int)
    ensures Sum(m[k := v]) == Sum(m) + v - (if k in m then m[k] else 0)
  {
    SumRemove(m[k := v], k);
    if k in m {
      SumRemove(m, k);
      assert m[k := v] - {k} == m - {k};
    } else {
      assert m[k := v] - {k} == m;
    }
  }

  lemma {:induction false} SumNonNegative<K>(m: map<K, int>)
    requires forall k :: k in m ==> m[k] >= 0
    ensures Sum(m) >= 0
    ensures forall k :: k in m ==> m[k] <= Sum(m)
    decreases |m|
  {
    forall k | k in m
      ensures 0 <= m[k] <= Sum(m)
    {
      SumRemove(m, k);
      SumNonNegative(m - {k});
    }
  }
}
