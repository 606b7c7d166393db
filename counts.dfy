/**
 * The per-plugin error count (`_pluginErrorCount`) as a value: a map from
 * plugin key to a count, where a missing key reads as zero.
 */
module Counts {

  /** `TryGetValue(key, out n) ? n : 0`. */
  function CountOf(m: map<string, nat>, k: string): nat {
    if k in m then m[k] else 0
  }

  /**
   * `if (!ContainsKey(k)) m[k] = 0; m[k] += n`: the count of `k` rises by
   * `n`, every other count is unchanged, and `k` becomes a key.
   */
  function Added(m: map<string, nat>, k: string, n: nat): (r: map<string, nat>)
    ensures CountOf(r, k) == CountOf(m, k) + n
    ensures forall j :: j != k ==> CountOf(r, j) == CountOf(m, j)
    ensures r.Keys == m.Keys + {k}
  {
    m[k := CountOf(m, k) + n]
  }
}
