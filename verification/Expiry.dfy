/** Values with a deadline, expired on read. Times are epoch milliseconds. */
module Expiry {
  import opened Wrappers

  datatype Timed<+V> = Timed(value: V, expiresAt: Option<int>)

  predicate Expired<V>(e: Timed<V>, now: int) {
    e.expiresAt.Some? && e.expiresAt.value <= now
  }

  /** What a reader sees at `now`: an expired entry is indistinguishable from an absent one. */
  function Live<K, V>(m: map<K, Timed<V>>, k: K, now: int): Option<Timed<V>> {
    if k in m && !Expired(m[k], now) then Some(m[k]) else None
  }

  /** An entry seen at `now`, seen again later. */
  function Later<V>(e: Option<Timed<V>>, later: int): Option<Timed<V>> {
    if e.Some? && Expired(e.value, later) then None else e
  }

  lemma LiveLater<K, V>(m: map<K, Timed<V>>, k: K, now: int, later: int)
    requires now <= later
    ensures Live(m, k, later) == Later(Live(m, k, now), later)
  {
  }

  function After(seconds: int, now: int): int {
    now + seconds * 1000
  }

  /** `m` lost nothing but entries dead at `now`. */
  ghost predicate Swept<K, V>(before: map<K, Timed<V>>, m: map<K, Timed<V>>, now: int) {
    && (forall k :: k in m ==> k in before && before[k] == m[k])
    && (forall k :: k in before && k !in m ==> Expired(before[k], now))
  }
}
