/** A payment configuration item (app/payment_config.py) and the scan window
    every scanner derives from it. */
module Config {
  import opened Wrappers
  import opened Records

  /** `Item`: one configured account of a provider. */
  datatype Item = Item(name: Option<string>, address: Option<string>, apiKey: string,
                       days: int, payeeId: Option<int>)

  /** `to_date = now`, `from_date = to_date - timedelta(days=item.days)`. */
  function ScanWindow(now: Instant, days: int): (w: (Instant, Instant))
    ensures w.1 == now
    ensures w.1 - w.0 == days * MICROS_PER_DAY
    ensures days >= 0 ==> w.0 <= w.1
  {
    (now - days * MICROS_PER_DAY, now)
  }

  /** `int(t.timestamp())`: whole Unix seconds, truncated toward zero. */
  function UnixSeconds(t: Instant): (s: int)
    ensures t >= 0 ==> s >= 0 && s * MICROS_PER_SECOND <= t < (s + 1) * MICROS_PER_SECOND
    ensures t < 0 ==> s <= 0 && (s - 1) * MICROS_PER_SECOND < t <= s * MICROS_PER_SECOND
  {
    if t >= 0 then t / MICROS_PER_SECOND else -((-t) / MICROS_PER_SECOND)
  }

  /** Truncation keeps the order of instants, so a non-empty window stays
      ordered in seconds (it may collapse to an empty one). */
  lemma UnixSecondsMonotone(a: Instant, b: Instant)
    requires a <= b
    ensures UnixSeconds(a) <= UnixSeconds(b)
  {
  }
}
